/** The canonical serializer behind the buyer-invoice snapshot. Text is a sequence of UTF-16 code
    units, as JavaScript strings are; a number is the decimal text that identifies it. */
module StableJson {
  import opened Sorting

  type CodeUnit = n: int | 0 <= n < 0x1_0000
  type Text = seq<CodeUnit>

  datatype Field = Field(key: Text, value: Json)

  datatype Json =
    | Undefined
    | Null
    | Bool(b: bool)
    | Num(digits: Text)
    | Str(s: Text)
    | Arr(items: seq<Json>)
    | Obj(fields: seq<Field>)

  const QUOTE: CodeUnit := 0x22
  const BACKSLASH: CodeUnit := 0x5C
  const COMMA: CodeUnit := 0x2C
  const COLON: CodeUnit := 0x3A
  const OPEN_BRACKET: CodeUnit := 0x5B
  const CLOSE_BRACKET: CodeUnit := 0x5D
  const OPEN_BRACE: CodeUnit := 0x7B
  const CLOSE_BRACE: CodeUnit := 0x7D
  const NULL_TEXT: Text := [0x6E, 0x75, 0x6C, 0x6C]
  const TRUE_TEXT: Text := [0x74, 0x72, 0x75, 0x65]
  const FALSE_TEXT: Text := [0x66, 0x61, 0x6C, 0x73, 0x65]

  // ----- quoted strings, section 7 of RFC 8259 with the lone-surrogate rule of ECMAScript -----

  predicate IsHighSurrogate(u: CodeUnit) { 0xD800 <= u <= 0xDBFF }

  predicate IsLowSurrogate(u: CodeUnit) { 0xDC00 <= u <= 0xDFFF }

  function HexDigit(d: int): CodeUnit
    requires 0 <= d < 16
  {
    if d < 10 then 0x30 + d else 0x61 + (d - 10)
  }

  function UnicodeEscape(u: CodeUnit): Text {
    [BACKSLASH, 0x75, HexDigit(u / 4096), HexDigit(u / 256 % 16), HexDigit(u / 16 % 16), HexDigit(u % 16)]
  }

  function EscapeUnit(u: CodeUnit): Text {
    if u == QUOTE || u == BACKSLASH then [BACKSLASH, u]
    else if u == 0x08 then [BACKSLASH, 0x62]
    else if u == 0x09 then [BACKSLASH, 0x74]
    else if u == 0x0A then [BACKSLASH, 0x6E]
    else if u == 0x0C then [BACKSLASH, 0x66]
    else if u == 0x0D then [BACKSLASH, 0x72]
    else if u < 0x20 || IsHighSurrogate(u) || IsLowSurrogate(u) then UnicodeEscape(u)
    else [u]
  }

  /** A surrogate pair stands for itself; a surrogate on its own is escaped. */
  function Escape(s: Text): Text {
    if s == [] then []
    else if |s| > 1 && IsHighSurrogate(s[0]) && IsLowSurrogate(s[1]) then [s[0], s[1]] + Escape(s[2..])
    else EscapeUnit(s[0]) + Escape(s[1..])
  }

  function Quote(s: Text): Text {
    [QUOTE] + Escape(s) + [QUOTE]
  }

  datatype Decoded = Decoded(s: Text, rest: Text) | Malformed {
    function Prepend(u: CodeUnit): Decoded {
      match this
      case Decoded(s, rest) => Decoded([u] + s, rest)
      case Malformed => Malformed
    }
  }

  function HexValue(u: CodeUnit): (d: int)
    ensures 0 <= d < 16
  {
    if 0x30 <= u <= 0x39 then u - 0x30 else if 0x61 <= u <= 0x66 then u - 0x61 + 10 else 0
  }

  function ShortEscape(u: CodeUnit): CodeUnit {
    if u == 0x62 then 0x08
    else if u == 0x74 then 0x09
    else if u == 0x6E then 0x0A
    else if u == 0x66 then 0x0C
    else if u == 0x72 then 0x0D
    else u
  }

  /** Reads the inside of a quoted string up to its closing quote. */
  function Decode(text: Text): Decoded {
    if text == [] then Malformed
    else if text[0] == QUOTE then Decoded([], text[1..])
    else if text[0] != BACKSLASH then Decode(text[1..]).Prepend(text[0])
    else if |text| < 2 then Malformed
    else if text[1] != 0x75 then Decode(text[2..]).Prepend(ShortEscape(text[1]))
    else if |text| < 6 then Malformed
    else
      var u := HexValue(text[2]) * 4096 + HexValue(text[3]) * 256 + HexValue(text[4]) * 16 + HexValue(text[5]);
      Decode(text[6..]).Prepend(u)
  }

  lemma HexDigitsRead(u: CodeUnit)
    ensures HexValue(HexDigit(u / 4096)) * 4096 + HexValue(HexDigit(u / 256 % 16)) * 256
          + HexValue(HexDigit(u / 16 % 16)) * 16 + HexValue(HexDigit(u % 16)) == u
  {
    assert forall d :: 0 <= d < 16 ==> HexValue(HexDigit(d)) == d;
    assert u / 16 / 16 == u / 256 && u / 256 / 16 == u / 4096;
  }

  lemma {:induction false} DecodeHex(u: CodeUnit, rest: Text)
    ensures Decode(UnicodeEscape(u) + rest) == Decode(rest).Prepend(u)
  {
    var text := UnicodeEscape(u) + rest;
    assert text[6..] == rest;
    HexDigitsRead(u);
  }

  lemma {:induction false} DecodeUnit(u: CodeUnit, rest: Text)
    ensures Decode(EscapeUnit(u) + rest) == Decode(rest).Prepend(u)
  {
    var text := EscapeUnit(u) + rest;
    assert text[|EscapeUnit(u)|..] == rest;
    if |EscapeUnit(u)| == 6 {
      DecodeHex(u, rest);
    }
  }

  lemma {:induction false} DecodePair(high: CodeUnit, low: CodeUnit, rest: Text)
    requires IsHighSurrogate(high) && IsLowSurrogate(low)
    ensures Decode([high, low] + rest) == Decode(rest).Prepend(low).Prepend(high)
  {
    var text := [high, low] + rest;
    assert text[1..] == [low] + rest;
    assert text[1..][1..] == rest;
  }

  lemma {:induction false} DecodeEscaped(s: Text, rest: Text)
    ensures Decode(Escape(s) + ([QUOTE] + rest)) == Decoded(s, rest)
    decreases |s|
  {
    var close := [QUOTE] + rest;
    if s == [] {
      assert Escape(s) + close == close;
      assert close[1..] == rest;
    } else if |s| > 1 && IsHighSurrogate(s[0]) && IsLowSurrogate(s[1]) {
      DecodeEscaped(s[2..], rest);
      DecodePair(s[0], s[1], Escape(s[2..]) + close);
      Regroup([s[0], s[1]], Escape(s[2..]), close);
      assert [s[0]] + ([s[1]] + s[2..]) == s;
    } else {
      DecodeEscaped(s[1..], rest);
      DecodeUnit(s[0], Escape(s[1..]) + close);
      Regroup(EscapeUnit(s[0]), Escape(s[1..]), close);
      assert [s[0]] + s[1..] == s;
    }
  }

  lemma DecodeQuoted(s: Text, x: Text)
    ensures Quote(s) + x != [] && Decode((Quote(s) + x)[1..]) == Decoded(s, x)
  {
    DecodeEscaped(s, x);
    assert (Quote(s) + x)[1..] == Escape(s) + ([QUOTE] + x);
  }

  /** A quoted string says where it ends and which string it is. */
  lemma QuoteInjective(s: Text, t: Text, x: Text, y: Text)
    requires Quote(s) + x == Quote(t) + y
    ensures s == t && x == y
  {
    DecodeQuoted(s, x);
    DecodeQuoted(t, y);
  }

  // ----- values -----

  function Size(v: Json): nat {
    match v
    case Arr(items) => 1 + SizeItems(items)
    case Obj(fields) => 1 + SizeFields(fields)
    case _ => 0
  }

  function SizeItems(items: seq<Json>): nat {
    if items == [] then 0 else 1 + Size(items[0]) + SizeItems(items[1..])
  }

  function SizeFields(fields: seq<Field>): nat {
    if fields == [] then 0 else 1 + Size(fields[0].value) + SizeFields(fields[1..])
  }

  /** The order of `Array.prototype.sort` on strings, by code unit (section 3.2.3 of RFC 8785). */
  predicate TextLe(a: Text, b: Text) {
    if a == [] then true
    else if b == [] then false
    else a[0] < b[0] || (a[0] == b[0] && TextLe(a[1..], b[1..]))
  }

  const KeyLe: (Field, Field) -> bool := (f: Field, g: Field) => TextLe(f.key, g.key)

  lemma {:induction false} InsertKeepsSize(f: Field, fields: seq<Field>)
    ensures SizeFields(Insert(f, fields, KeyLe)) == 1 + Size(f.value) + SizeFields(fields)
  {
    if fields != [] && !KeyLe(f, fields[0]) {
      InsertKeepsSize(f, fields[1..]);
    }
  }

  lemma {:induction false} SortKeepsSize(fields: seq<Field>)
    ensures SizeFields(Sort(fields, KeyLe)) == SizeFields(fields)
  {
    if fields != [] {
      SortKeepsSize(fields[1..]);
      InsertKeepsSize(fields[0], Sort(fields[1..], KeyLe));
    }
  }

  function Stable(v: Json): Text
    decreases Size(v), 0
  {
    match v
    case Undefined => NULL_TEXT
    case Null => NULL_TEXT
    case Bool(b) => if b then TRUE_TEXT else FALSE_TEXT
    case Num(digits) => digits
    case Str(s) => Quote(s)
    case Arr(items) => [OPEN_BRACKET] + StableItems(items) + [CLOSE_BRACKET]
    case Obj(fields) =>
      SortKeepsSize(fields);
      [OPEN_BRACE] + StableFields(Sort(fields, KeyLe)) + [CLOSE_BRACE]
  }

  function StableItems(items: seq<Json>): Text
    decreases SizeItems(items), 1
  {
    if items == [] then []
    else if |items| == 1 then Stable(items[0])
    else Stable(items[0]) + [COMMA] + StableItems(items[1..])
  }

  function StableField(f: Field): Text
    decreases Size(f.value), 1
  {
    Quote(f.key) + [COLON] + Stable(f.value)
  }

  function StableFields(fields: seq<Field>): Text
    decreases SizeFields(fields), 1
  {
    if fields == [] then []
    else if |fields| == 1 then StableField(fields[0])
    else StableField(fields[0]) + [COMMA] + StableFields(fields[1..])
  }

  predicate IsDigit(u: CodeUnit) { 0x30 <= u <= 0x39 }

  predicate IsNumberUnit(u: CodeUnit) {
    IsDigit(u) || u == 0x2B || u == 0x2D || u == 0x2E || u == 0x65
  }

  /** What `Number.prototype.toString` prints: a digit or a minus sign first, then digits, point,
      exponent and signs. */
  predicate IsNumberText(t: Text) {
    && t != []
    && (IsDigit(t[0]) || t[0] == 0x2D)
    && forall i :: 0 <= i < |t| ==> IsNumberUnit(t[i])
  }

  ghost predicate DistinctKeys(fields: seq<Field>) {
    DistinctBy(fields, (f: Field) => f.key)
  }

  /** JavaScript values: number texts are number texts and no object has a key twice. */
  ghost predicate WellFormed(v: Json)
    decreases Size(v), 0
  {
    match v
    case Num(digits) => IsNumberText(digits)
    case Arr(items) => WellFormedItems(items)
    case Obj(fields) => DistinctKeys(fields) && WellFormedFields(fields)
    case _ => true
  }

  ghost predicate WellFormedItems(items: seq<Json>)
    decreases SizeItems(items), 1
  {
    items != [] ==> WellFormed(items[0]) && WellFormedItems(items[1..])
  }

  ghost predicate WellFormedFields(fields: seq<Field>)
    decreases SizeFields(fields), 1
  {
    fields != [] ==> WellFormed(fields[0].value) && WellFormedFields(fields[1..])
  }

  lemma {:induction false} WellFormedItem(items: seq<Json>, i: nat)
    requires WellFormedItems(items) && i < |items|
    ensures WellFormed(items[i]) && Size(items[i]) < SizeItems(items)
  {
    if i > 0 {
      WellFormedItem(items[1..], i - 1);
    }
  }

  lemma {:induction false} SizeOfField(fields: seq<Field>, i: nat)
    requires i < |fields|
    ensures Size(fields[i].value) < SizeFields(fields)
  {
    if i > 0 {
      SizeOfField(fields[1..], i - 1);
    }
  }

  lemma {:induction false} WellFormedField(fields: seq<Field>, i: nat)
    requires WellFormedFields(fields) && i < |fields|
    ensures WellFormed(fields[i].value)
  {
    if i > 0 {
      WellFormedField(fields[1..], i - 1);
    }
  }

  lemma {:induction false} WellFormedFromFields(fields: seq<Field>)
    requires forall i :: 0 <= i < |fields| ==> WellFormed(fields[i].value)
    ensures WellFormedFields(fields)
  {
    if fields != [] {
      assert WellFormed(fields[0].value);
      forall i | 0 <= i < |fields| - 1 ensures WellFormed(fields[1..][i].value) {
        assert fields[1..][i] == fields[i + 1];
      }
      WellFormedFromFields(fields[1..]);
    }
  }

  predicate Nullish(v: Json) {
    v.Undefined? || v.Null?
  }

  /** Equality up to the order of object keys, with undefined read as null. */
  ghost predicate Same(a: Json, b: Json)
    decreases Size(a)
  {
    match a
    case Bool(x) => b == a
    case Num(x) => b == a
    case Str(x) => b == a
    case Arr(items) =>
      && b.Arr?
      && |b.items| == |items|
      && forall i :: 0 <= i < |items| ==> Size(items[i]) < Size(a) && Same(items[i], b.items[i])
    case Obj(fields) =>
      && b.Obj?
      && (forall i :: 0 <= i < |fields| ==> HasKey(b.fields, fields[i].key))
      && (forall j :: 0 <= j < |b.fields| ==> HasKey(fields, b.fields[j].key))
      && (forall i, j :: 0 <= i < |fields| && 0 <= j < |b.fields| && fields[i].key == b.fields[j].key ==>
            Size(fields[i].value) < Size(a) && Same(fields[i].value, b.fields[j].value))
    case _ => Nullish(b)
  }

  ghost predicate HasKey(fields: seq<Field>, key: Text) {
    exists i :: 0 <= i < |fields| && fields[i].key == key
  }

  // ----- key order -----

  lemma {:induction false} TextLeTotal(a: Text, b: Text)
    ensures TextLe(a, b) || TextLe(b, a)
    ensures TextLe(a, b) && TextLe(b, a) ==> a == b
  {
    if a != [] && b != [] {
      TextLeTotal(a[1..], b[1..]);
      assert a == [a[0]] + a[1..] && b == [b[0]] + b[1..];
    }
  }

  lemma {:induction false} TextLeTransitive(a: Text, b: Text, c: Text)
    requires TextLe(a, b) && TextLe(b, c)
    ensures TextLe(a, c)
  {
    if a != [] && b != [] && c != [] && a[0] == b[0] == c[0] {
      TextLeTransitive(a[1..], b[1..], c[1..]);
    }
  }

  lemma KeyLeIsPreorder()
    ensures TotalPreorder(KeyLe)
  {
    forall f, g ensures KeyLe(f, g) || KeyLe(g, f) {
      TextLeTotal(f.key, g.key);
    }
    forall f, g, h | KeyLe(f, g) && KeyLe(g, h) ensures KeyLe(f, h) {
      TextLeTransitive(f.key, g.key, h.key);
    }
  }

  /** A sorted object has the fields of the original one. */
  lemma {:induction false} SortedFields(fields: seq<Field>)
    requires DistinctKeys(fields) && WellFormedFields(fields)
    ensures var sorted := Sort(fields, KeyLe);
            && |sorted| == |fields|
            && DistinctKeys(sorted) && WellFormedFields(sorted)
            && (forall f :: f in sorted <==> f in fields)
  {
    var sorted := Sort(fields, KeyLe);
    SortPermutes(fields, KeyLe);
    SortKeepsElements(fields, KeyLe);
    forall i | 0 <= i < |sorted| ensures WellFormed(sorted[i].value) {
      assert sorted[i] in sorted;
      var k :| 0 <= k < |fields| && fields[k] == sorted[i];
      WellFormedField(fields, k);
    }
    WellFormedFromFields(sorted);
    PermutationKeepsDistinct(fields, sorted, (f: Field) => f.key);
  }

  // ----- injectivity -----

  /** What can follow a value inside a larger text. */
  predicate Delimited(x: Text) {
    x != [] ==> x[0] == COMMA || x[0] == CLOSE_BRACKET || x[0] == CLOSE_BRACE
  }

  lemma NumberNotShorter(s: Text, t: Text, x: Text, y: Text)
    requires forall i :: 0 <= i < |t| ==> IsNumberUnit(t[i])
    requires Delimited(x)
    requires s + x == t + y
    ensures |t| <= |s|
  {
    assert x != [] ==> (s + x)[|s|] == x[0];
    assert |s| + |x| == |s + x|;
  }

  lemma NumberEnds(s: Text, t: Text, x: Text, y: Text)
    requires forall i :: 0 <= i < |s| ==> IsNumberUnit(s[i])
    requires forall i :: 0 <= i < |t| ==> IsNumberUnit(t[i])
    requires Delimited(x) && Delimited(y)
    requires s + x == t + y
    ensures s == t && x == y
  {
    NumberNotShorter(s, t, x, y);
    NumberNotShorter(t, s, y, x);
    SplitAt(s, t, x, y);
  }

  /** The first code unit of a serialized value. */
  function Lead(v: Json): CodeUnit {
    match v
    case Bool(b) => if b then 0x74 else 0x66
    case Num(digits) => if digits == [] then 0x30 else digits[0]
    case Str(s) => QUOTE
    case Arr(items) => OPEN_BRACKET
    case Obj(fields) => OPEN_BRACE
    case _ => 0x6E
  }

  lemma {:induction false} StableLead(v: Json)
    requires WellFormed(v)
    ensures Stable(v) != [] && Stable(v)[0] == Lead(v)
    ensures !Delimited(Stable(v))
  {
  }

  lemma SplitAt(a: Text, b: Text, x: Text, y: Text)
    requires a + x == b + y && |a| == |b|
    ensures a == b && x == y
  {
    assert (a + x)[..|a|] == a && (b + y)[..|b|] == b;
    assert (a + x)[|a|..] == x && (b + y)[|b|..] == y;
  }

  lemma {:induction false} StableInjective(a: Json, b: Json, x: Text, y: Text)
    requires WellFormed(a) && WellFormed(b)
    requires Delimited(x) && Delimited(y)
    requires Stable(a) + x == Stable(b) + y
    ensures Same(a, b) && x == y
    decreases Size(a), 0
  {
    StableLead(a);
    StableLead(b);
    assert (Stable(a) + x)[0] == Lead(a) && (Stable(b) + y)[0] == Lead(b);
    match a
    case Arr(items) => ArraysInjective(items, b.items, x, y);
    case Obj(fields) => ObjectsInjective(fields, b.fields, x, y);
    case Str(s) => QuoteInjective(s, b.s, x, y);
    case Num(digits) => NumberEnds(digits, b.digits, x, y);
    case Bool(_) => SplitAt(Stable(a), Stable(b), x, y);
    case _ => SplitAt(Stable(a), Stable(b), x, y);
  }

  lemma {:induction false} ArraysInjective(items: seq<Json>, others: seq<Json>, x: Text, y: Text)
    requires WellFormedItems(items) && WellFormedItems(others)
    requires Stable(Arr(items)) + x == Stable(Arr(others)) + y
    ensures Same(Arr(items), Arr(others)) && x == y
    decreases SizeItems(items), 2
  {
    ArrayText(items, x);
    ArrayText(others, y);
    SplitAt([OPEN_BRACKET], [OPEN_BRACKET], ItemsThen(items, [CLOSE_BRACKET] + x),
        ItemsThen(others, [CLOSE_BRACKET] + y));
    ItemsInjective(items, others, x, y);
    forall i | 0 <= i < |items| ensures Size(items[i]) < Size(Arr(items)) {
      WellFormedItem(items, i);
    }
  }

  /** The items of an array followed by `z`, grouped to the right. */
  function ItemsThen(items: seq<Json>, z: Text): Text {
    if items == [] then z
    else Stable(items[0]) + if |items| == 1 then z else [COMMA] + ItemsThen(items[1..], z)
  }

  lemma {:induction false} ItemsText(items: seq<Json>, z: Text)
    ensures StableItems(items) + z == ItemsThen(items, z)
  {
    if |items| > 1 {
      ItemsText(items[1..], z);
      Regroup(Stable(items[0]) + [COMMA], StableItems(items[1..]), z);
      Regroup(Stable(items[0]), [COMMA], ItemsThen(items[1..], z));
    }
  }

  lemma {:induction false} ArrayText(items: seq<Json>, x: Text)
    ensures Stable(Arr(items)) + x == [OPEN_BRACKET] + ItemsThen(items, [CLOSE_BRACKET] + x)
  {
    ItemsText(items, [CLOSE_BRACKET] + x);
    Regroup([OPEN_BRACKET] + StableItems(items), [CLOSE_BRACKET], x);
    Regroup([OPEN_BRACKET], StableItems(items), [CLOSE_BRACKET] + x);
  }

  lemma {:induction false} ItemsThenLead(items: seq<Json>, z: Text)
    requires WellFormedItems(items) && z != [] && z[0] == CLOSE_BRACKET
    ensures ItemsThen(items, z) != []
    ensures ItemsThen(items, z)[0] == if items == [] then CLOSE_BRACKET else Lead(items[0])
  {
    if items != [] {
      StableLead(items[0]);
    }
  }

  lemma {:induction false} ItemsInjective(items: seq<Json>, others: seq<Json>, x: Text, y: Text)
    requires WellFormedItems(items) && WellFormedItems(others)
    requires ItemsThen(items, [CLOSE_BRACKET] + x) == ItemsThen(others, [CLOSE_BRACKET] + y)
    ensures |items| == |others| && x == y
    ensures forall i :: 0 <= i < |items| ==> Same(items[i], others[i])
    decreases SizeItems(items), 1
  {
    var v, w := [CLOSE_BRACKET] + x, [CLOSE_BRACKET] + y;
    ItemsThenLead(items, v);
    ItemsThenLead(others, w);
    if items == [] {
      SplitAt([CLOSE_BRACKET], [CLOSE_BRACKET], x, y);
    } else {
      var s := if |items| == 1 then v else [COMMA] + ItemsThen(items[1..], v);
      var t := if |others| == 1 then w else [COMMA] + ItemsThen(others[1..], w);
      StableInjective(items[0], others[0], s, t);
      if |items| == 1 {
        SplitAt([CLOSE_BRACKET], [CLOSE_BRACKET], x, y);
      } else {
        SplitAt([COMMA], [COMMA], ItemsThen(items[1..], v), ItemsThen(others[1..], w));
        ItemsInjective(items[1..], others[1..], x, y);
        assert items == [items[0]] + items[1..] && others == [others[0]] + others[1..];
      }
    }
  }

  lemma {:induction false} FieldInjective(f: Field, g: Field, x: Text, y: Text)
    requires WellFormed(f.value) && WellFormed(g.value)
    requires Delimited(x) && Delimited(y)
    requires StableField(f) + x == StableField(g) + y
    ensures f.key == g.key && Same(f.value, g.value) && x == y
    decreases Size(f.value), 1
  {
    var s, t := Stable(f.value) + x, Stable(g.value) + y;
    FieldText(f, x);
    FieldText(g, y);
    QuoteInjective(f.key, g.key, [COLON] + s, [COLON] + t);
    SplitAt([COLON], [COLON], s, t);
    StableInjective(f.value, g.value, x, y);
  }

  lemma {:induction false} FieldText(f: Field, x: Text)
    ensures StableField(f) + x == Quote(f.key) + ([COLON] + (Stable(f.value) + x))
  {
    Regroup(Quote(f.key) + [COLON], Stable(f.value), x);
    Regroup(Quote(f.key), [COLON], Stable(f.value) + x);
  }

  /** The fields of an object followed by `z`, grouped to the right. */
  function FieldsThen(fields: seq<Field>, z: Text): Text {
    if fields == [] then z
    else StableField(fields[0]) + if |fields| == 1 then z else [COMMA] + FieldsThen(fields[1..], z)
  }

  lemma {:induction false} FieldsText(fields: seq<Field>, z: Text)
    ensures StableFields(fields) + z == FieldsThen(fields, z)
  {
    if |fields| > 1 {
      FieldsText(fields[1..], z);
      Regroup(StableField(fields[0]) + [COMMA], StableFields(fields[1..]), z);
      Regroup(StableField(fields[0]), [COMMA], FieldsThen(fields[1..], z));
    }
  }

  lemma {:induction false} ObjectText(fields: seq<Field>, x: Text)
    ensures Stable(Obj(fields)) + x == [OPEN_BRACE] + FieldsThen(Sort(fields, KeyLe), [CLOSE_BRACE] + x)
  {
    var sorted := Sort(fields, KeyLe);
    FieldsText(sorted, [CLOSE_BRACE] + x);
    Regroup([OPEN_BRACE] + StableFields(sorted), [CLOSE_BRACE], x);
    Regroup([OPEN_BRACE], StableFields(sorted), [CLOSE_BRACE] + x);
  }

  lemma {:induction false} FieldsThenLead(fields: seq<Field>, z: Text)
    requires z != [] && z[0] == CLOSE_BRACE
    ensures FieldsThen(fields, z) != []
    ensures FieldsThen(fields, z)[0] == if fields == [] then CLOSE_BRACE else QUOTE
  {
    if fields != [] {
      assert StableField(fields[0])[0] == QUOTE;
    }
  }

  lemma {:induction false} FieldsInjective(fields: seq<Field>, others: seq<Field>, x: Text, y: Text)
    requires WellFormedFields(fields) && WellFormedFields(others)
    requires FieldsThen(fields, [CLOSE_BRACE] + x) == FieldsThen(others, [CLOSE_BRACE] + y)
    ensures |fields| == |others| && x == y
    ensures forall i :: 0 <= i < |fields| ==> fields[i].key == others[i].key && Same(fields[i].value, others[i].value)
    decreases SizeFields(fields), 1
  {
    var v, w := [CLOSE_BRACE] + x, [CLOSE_BRACE] + y;
    FieldsThenLead(fields, v);
    FieldsThenLead(others, w);
    if fields == [] {
      SplitAt([CLOSE_BRACE], [CLOSE_BRACE], x, y);
    } else {
      var s := if |fields| == 1 then v else [COMMA] + FieldsThen(fields[1..], v);
      var t := if |others| == 1 then w else [COMMA] + FieldsThen(others[1..], w);
      FieldInjective(fields[0], others[0], s, t);
      if |fields| == 1 {
        SplitAt([CLOSE_BRACE], [CLOSE_BRACE], x, y);
      } else {
        SplitAt([COMMA], [COMMA], FieldsThen(fields[1..], v), FieldsThen(others[1..], w));
        FieldsInjective(fields[1..], others[1..], x, y);
        assert fields == [fields[0]] + fields[1..] && others == [others[0]] + others[1..];
      }
    }
  }

  lemma {:induction false} ObjectsInjective(fields: seq<Field>, others: seq<Field>, x: Text, y: Text)
    requires WellFormed(Obj(fields)) && WellFormed(Obj(others))
    requires Stable(Obj(fields)) + x == Stable(Obj(others)) + y
    ensures Same(Obj(fields), Obj(others)) && x == y
    decreases SizeFields(fields), 2
  {
    var f, g := Sort(fields, KeyLe), Sort(others, KeyLe);
    SortedFields(fields);
    SortedFields(others);
    SortKeepsSize(fields);
    ObjectText(fields, x);
    ObjectText(others, y);
    SplitAt([OPEN_BRACE], [OPEN_BRACE], FieldsThen(f, [CLOSE_BRACE] + x), FieldsThen(g, [CLOSE_BRACE] + y));
    FieldsInjective(f, g, x, y);
    AlignedFieldsAreSame(fields, others, f, g);
  }

  lemma AlignedFieldsAreSame(fields: seq<Field>, others: seq<Field>, f: seq<Field>, g: seq<Field>)
    requires |f| == |g| && DistinctKeys(g)
    requires forall e :: e in f <==> e in fields
    requires forall e :: e in g <==> e in others
    requires forall i :: 0 <= i < |f| ==> f[i].key == g[i].key && Same(f[i].value, g[i].value)
    ensures Same(Obj(fields), Obj(others))
  {
    forall i | 0 <= i < |fields|
      ensures HasKey(others, fields[i].key) && Size(fields[i].value) < Size(Obj(fields))
      ensures forall j :: 0 <= j < |others| && fields[i].key == others[j].key ==> Same(fields[i].value, others[j].value)
    {
      SizeOfField(fields, i);
      assert fields[i] in f;
      var p :| 0 <= p < |f| && f[p] == fields[i];
      assert g[p] in others;
      forall j | 0 <= j < |others| && fields[i].key == others[j].key ensures Same(fields[i].value, others[j].value) {
        assert others[j] in g;
        var q :| 0 <= q < |g| && g[q] == others[j];
        assert p == q;
      }
    }
    forall j | 0 <= j < |others| ensures HasKey(fields, others[j].key) {
      assert others[j] in g;
      var q :| 0 <= q < |g| && g[q] == others[j];
      assert f[q] in fields;
    }
  }

  // ----- equality decides the text -----

  lemma {:induction false} SameStable(a: Json, b: Json)
    requires WellFormed(a) && WellFormed(b)
    requires Same(a, b)
    ensures Stable(a) == Stable(b)
    decreases Size(a), 0
  {
    match a
    case Arr(items) => SameItems(items, b.items);
    case Obj(fields) => SameObjects(fields, b.fields);
    case _ =>
  }

  lemma {:induction false} SameItems(items: seq<Json>, others: seq<Json>)
    requires WellFormedItems(items) && WellFormedItems(others)
    requires |items| == |others|
    requires forall i :: 0 <= i < |items| ==> Same(items[i], others[i])
    ensures StableItems(items) == StableItems(others)
    decreases SizeItems(items), 1
  {
    if items != [] {
      SameStable(items[0], others[0]);
      SameItems(items[1..], others[1..]);
    }
  }

  lemma {:induction false} SameFields(fields: seq<Field>, others: seq<Field>)
    requires WellFormedFields(fields) && WellFormedFields(others)
    requires |fields| == |others|
    requires forall i :: 0 <= i < |fields| ==> fields[i].key == others[i].key && Same(fields[i].value, others[i].value)
    ensures StableFields(fields) == StableFields(others)
    decreases SizeFields(fields), 1
  {
    if fields != [] {
      SameStable(fields[0].value, others[0].value);
      SameFields(fields[1..], others[1..]);
    }
  }

  function KeysOf(fields: seq<Field>): set<Text> {
    set f | f in fields :: f.key
  }

  /** Two sorted lists of distinct keys with the same keys agree key by key. */
  lemma {:induction false} SortedKeysAlign(f: seq<Field>, g: seq<Field>)
    requires Sorted(f, KeyLe) && Sorted(g, KeyLe)
    requires DistinctKeys(f) && DistinctKeys(g)
    requires KeysOf(f) == KeysOf(g)
    ensures |f| == |g|
    ensures forall i :: 0 <= i < |f| ==> f[i].key == g[i].key
  {
    assert f != [] ==> f[0].key in KeysOf(f);
    assert g != [] ==> g[0].key in KeysOf(g);
    if f != [] {
      SmallestKeysAgree(f, g);
      KeysOfTail(f);
      KeysOfTail(g);
      SortedKeysAlign(f[1..], g[1..]);
      assert f == [f[0]] + f[1..] && g == [g[0]] + g[1..];
    }
  }

  lemma SmallestKeysAgree(f: seq<Field>, g: seq<Field>)
    requires f != [] && g != []
    requires Sorted(f, KeyLe) && Sorted(g, KeyLe)
    requires f[0].key in KeysOf(g) && g[0].key in KeysOf(f)
    ensures f[0].key == g[0].key
  {
    var i :| 0 <= i < |g| && g[i].key == f[0].key;
    var j :| 0 <= j < |f| && f[j].key == g[0].key;
    if i > 0 && j > 0 {
      assert KeyLe(g[0], g[i]) && KeyLe(f[0], f[j]);
      TextLeTotal(f[0].key, g[0].key);
    }
  }

  lemma KeysOfTail(f: seq<Field>)
    requires f != [] && DistinctKeys(f)
    ensures KeysOf(f[1..]) == KeysOf(f) - {f[0].key}
  {
    forall k ensures k in KeysOf(f[1..]) <==> k in KeysOf(f) && k != f[0].key {
      if k in KeysOf(f[1..]) {
        var i :| 0 <= i < |f[1..]| && f[1..][i].key == k;
        assert f[i + 1].key == k && f[i + 1] in f;
      }
      if k in KeysOf(f) && k != f[0].key {
        var i :| 0 <= i < |f| && f[i].key == k;
        assert f[1..][i - 1].key == k && f[1..][i - 1] in f[1..];
      }
    }
  }

  lemma {:induction false} SameObjects(fields: seq<Field>, others: seq<Field>)
    requires WellFormed(Obj(fields)) && WellFormed(Obj(others))
    requires Same(Obj(fields), Obj(others))
    ensures Stable(Obj(fields)) == Stable(Obj(others))
    decreases SizeFields(fields), 2
  {
    var f, g := Sort(fields, KeyLe), Sort(others, KeyLe);
    SortedFields(fields);
    SortedFields(others);
    SortKeepsSize(fields);
    KeyLeIsPreorder();
    SortSorts(fields, KeyLe);
    SortSorts(others, KeyLe);
    SameKeySets(fields, others, f, g);
    SortedKeysAlign(f, g);
    SameValues(fields, others, f, g);
    SameFields(f, g);
  }

  lemma SameValues(fields: seq<Field>, others: seq<Field>, f: seq<Field>, g: seq<Field>)
    requires Same(Obj(fields), Obj(others))
    requires |f| == |g| && forall i :: 0 <= i < |f| ==> f[i] in fields && g[i] in others && f[i].key == g[i].key
    ensures forall i :: 0 <= i < |f| ==> Same(f[i].value, g[i].value)
  {
    forall i | 0 <= i < |f| ensures Same(f[i].value, g[i].value) {
      var p :| 0 <= p < |fields| && fields[p] == f[i];
      var q :| 0 <= q < |others| && others[q] == g[i];
    }
  }

  lemma SameKeySets(fields: seq<Field>, others: seq<Field>, f: seq<Field>, g: seq<Field>)
    requires Same(Obj(fields), Obj(others))
    requires forall e :: e in f <==> e in fields
    requires forall e :: e in g <==> e in others
    ensures KeysOf(f) == KeysOf(g)
  {
    forall k ensures k in KeysOf(f) <==> k in KeysOf(g) {
      if k in KeysOf(f) {
        var i :| 0 <= i < |fields| && fields[i].key == k;
        assert HasKey(others, fields[i].key);
        var j :| 0 <= j < |others| && others[j].key == k;
        assert others[j] in g;
      }
      if k in KeysOf(g) {
        var j :| 0 <= j < |others| && others[j].key == k;
        assert HasKey(fields, others[j].key);
        var i :| 0 <= i < |fields| && fields[i].key == k;
        assert fields[i] in f;
      }
    }
  }

  /** Two values serialize to one text exactly when they are equal up to key order. */
  lemma {:induction false} StableDecidesSame(a: Json, b: Json)
    requires WellFormed(a) && WellFormed(b)
    ensures Stable(a) == Stable(b) <==> Same(a, b)
  {
    if Stable(a) == Stable(b) {
      assert Stable(a) + [] == Stable(a) && Stable(b) + [] == Stable(b);
      StableInjective(a, b, [], []);
    }
    if Same(a, b) {
      SameStable(a, b);
    }
  }

  /** Keys compare by their first different code unit; a beginning comes before what it begins. */
  lemma {:induction false} TextLeIff(a: Text, b: Text)
    ensures TextLe(a, b) <==>
            a <= b || exists k :: 0 <= k < |a| && k < |b| && a[..k] == b[..k] && a[k] < b[k]
  {
    if a != [] && b != [] {
      var x, y := a[1..], b[1..];
      TextLeIff(x, y);
      assert a == [a[0]] + x && b == [b[0]] + y;
      if a[0] < b[0] {
        assert a[..0] == b[..0];
      } else if a[0] == b[0] {
        if k :| 0 <= k < |x| && k < |y| && x[..k] == y[..k] && x[k] < y[k] {
          assert a[..k + 1] == [a[0]] + x[..k] && b[..k + 1] == [b[0]] + y[..k] && a[k + 1] < b[k + 1];
        }
        if k :| 0 <= k < |a| && k < |b| && a[..k] == b[..k] && a[k] < b[k] {
          assert k > 0 && x[..k - 1] == a[..k][1..] && y[..k - 1] == b[..k][1..] && x[k - 1] < y[k - 1];
        }
      } else {
        forall k | 0 < k < |a| && k < |b| ensures a[..k] != b[..k] {
          assert a[..k][0] == a[0] && b[..k][0] == b[0];
        }
      }
    }
  }

  /** The fields of an object are written in the order of their keys. */
  lemma {:induction false} FieldsAscend(fields: seq<Field>)
    ensures var sorted := Sort(fields, KeyLe);
            && Stable(Obj(fields)) == [0x7B] + StableFields(sorted) + [0x7D]
            && multiset(sorted) == multiset(fields)
            && forall i, j :: 0 <= i < j < |sorted| ==> TextLe(sorted[i].key, sorted[j].key)
  {
    KeyLeIsPreorder();
    SortPermutes(fields, KeyLe);
    SortSorts(fields, KeyLe);
    forall i, j | 0 <= i < j < |Sort(fields, KeyLe)|
      ensures TextLe(Sort(fields, KeyLe)[i].key, Sort(fields, KeyLe)[j].key)
    {
      assert KeyLe(Sort(fields, KeyLe)[i], Sort(fields, KeyLe)[j]);
    }
  }

  const EXAMPLE_ITEMS: seq<Json> := [Undefined, Str([0x0A])]
  const EXAMPLE_A := Field([0x61], Arr(EXAMPLE_ITEMS))
  const EXAMPLE_B := Field([0x62], Num([0x31]))

  lemma ExampleItems()
    ensures StableItems(EXAMPLE_ITEMS) == [0x6E, 0x75, 0x6C, 0x6C, 0x2C, 0x22, 0x5C, 0x6E, 0x22]
  {
    var last := [Str([0x0A])];
    assert EXAMPLE_ITEMS[1..] == last;
    assert Escape([]) == [] && [0x0A][1..] == [];
    assert Quote([0x0A]) == [0x22, 0x5C, 0x6E, 0x22];
    assert StableItems(last) == Quote([0x0A]);
  }

  lemma ExampleOrder()
    ensures Sort([EXAMPLE_B, EXAMPLE_A], KeyLe) == [EXAMPLE_A, EXAMPLE_B]
  {
    var one, two := EXAMPLE_B, EXAMPLE_A;
    assert !TextLe(one.key, two.key);
    assert !KeyLe(one, two);
    assert [one, two][1..] == [two] && [two][1..] == [];
    assert Sort([two], KeyLe) == [two];
    assert Insert(one, [], KeyLe) == [one];
    assert Insert(one, [two], KeyLe) == [two] + [one];
  }

  lemma ExampleFields()
    ensures StableFields([EXAMPLE_A, EXAMPLE_B]) == StableField(EXAMPLE_A) + [0x2C] + StableField(EXAMPLE_B)
  {
    assert [EXAMPLE_A, EXAMPLE_B][1..] == [EXAMPLE_B];
    assert StableFields([EXAMPLE_B]) == StableField(EXAMPLE_B);
  }

  lemma ExampleA()
    ensures StableField(EXAMPLE_A)
         == [0x22, 0x61, 0x22, 0x3A, 0x5B, 0x6E, 0x75, 0x6C, 0x6C, 0x2C, 0x22, 0x5C, 0x6E, 0x22, 0x5D]
  {
    ExampleItems();
    PlainQuote(0x61);
    assert Stable(EXAMPLE_A.value) == [0x5B] + StableItems(EXAMPLE_ITEMS) + [0x5D];
  }

  lemma ExampleB()
    ensures StableField(EXAMPLE_B) == [0x22, 0x62, 0x22, 0x3A, 0x31]
  {
    PlainQuote(0x62);
  }

  lemma TwoTexts(a: Text, b: Text)
    requires |a| == 15 && |b| == 5
    ensures a + [0x2C] + b == [a[0], a[1], a[2], a[3], a[4], a[5], a[6], a[7], a[8], a[9], a[10], a[11], a[12], a[13],
                               a[14], 0x2C, b[0], b[1], b[2], b[3], b[4]]
  {
  }

  /** For example `{"b":1,"a":[null,"\n"]}` is written with the key `a` first and the line break escaped; this is
      what stands between the braces. */
  lemma StableExample()
    ensures StableFields(Sort([EXAMPLE_B, EXAMPLE_A], KeyLe)) ==
            [0x22, 0x61, 0x22, 0x3A, 0x5B, 0x6E, 0x75, 0x6C, 0x6C, 0x2C, 0x22, 0x5C, 0x6E, 0x22, 0x5D, 0x2C, 0x22, 0x62,
             0x22, 0x3A, 0x31]
  {
    ExampleOrder();
    ExampleFields();
    ExampleA();
    ExampleB();
    TwoTexts(StableField(EXAMPLE_A), StableField(EXAMPLE_B));
  }

  lemma PlainQuote(u: CodeUnit)
    requires 0x61 <= u <= 0x7A
    ensures Quote([u]) == [0x22, u, 0x22]
  {
    assert [u][1..] == [] && Escape([]) == [];
    assert Escape([u]) == [u];
  }
}
