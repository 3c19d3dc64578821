/** The buyer-invoice approval snapshot: the stored JSON is compared with a projection of the live
    records, after the rows of both are ordered by Id. Field lists are parameters; an Id is ordered
    by `rank`, which stands for trimming and `localeCompare`. */
module InvoiceSnapshot {
  import opened Options
  import opened Sorting
  import opened StableJson

  datatype Column = Column(key: Text, path: seq<Text>)

  datatype Columns = Columns(invoice: seq<Column>, stem: seq<Column>, line: seq<Column>, extra: seq<Column>)

  /** The live records: the invoice, its PDF document, its STEM and the STEM's rows. */
  datatype LiveCase = LiveCase(invoice: Json, document: Json, stem: Json, lines: seq<Json>, extras: seq<Json>)

  /** The stored snapshot text: blank, not JSON, or a JSON value. */
  datatype Stored = Blank | NotJson | Parsed(value: Json)

  datatype Comparison = Legacy | Snapshot(matches: bool)

  datatype Projection = Projection(version: Json, invoice: Json, stem: Json, pdf: Json, lines: seq<Json>,
      extras: seq<Json>) {
    function ToJson(): Json {
      Obj([Field(VERSION, version), Field(INVOICE, invoice), Field(STEM, stem), Field(PDF, pdf),
           Field(LINES, Arr(lines)), Field(EXTRAS, Arr(extras))])
    }
  }

  const ID: Text := [0x49, 0x64]
  const PUBLISHED: Text :=
    [0x4C, 0x61, 0x74, 0x65, 0x73, 0x74, 0x50, 0x75, 0x62, 0x6C, 0x69, 0x73, 0x68, 0x65, 0x64, 0x56,
    0x65, 0x72, 0x73, 0x69, 0x6F, 0x6E, 0x49, 0x64]
  const OWNER: Text :=
    [0x42, 0x75, 0x79, 0x65, 0x72, 0x5F, 0x49, 0x6E, 0x76, 0x6F, 0x69, 0x63, 0x65, 0x5F, 0x5F, 0x63]
  const VERSION: Text := [0x76, 0x65, 0x72, 0x73, 0x69, 0x6F, 0x6E]
  const INVOICE: Text := [0x69, 0x6E, 0x76, 0x6F, 0x69, 0x63, 0x65]
  const STEM: Text := [0x73, 0x74, 0x65, 0x6D]
  const PDF: Text := [0x70, 0x64, 0x66]
  const LINES: Text := [0x6C, 0x69, 0x6E, 0x65, 0x73]
  const EXTRAS: Text := [0x65, 0x78, 0x74, 0x72, 0x61, 0x73]
  const ONE: Json := Num([0x31])

  function FieldIn(fields: seq<Field>, key: Text): Json {
    if fields == [] then Undefined
    else if fields[0].key == key then fields[0].value
    else FieldIn(fields[1..], key)
  }

  /** `value[key]`, undefined on anything but an object that has the key. */
  function Get(v: Json, key: Text): Json {
    if v.Obj? then FieldIn(v.fields, key) else Undefined
  }

  function ValueAt(v: Json, path: seq<Text>): Json
    decreases |path|
  {
    if path == [] then v else ValueAt(Get(v, path[0]), path[1..])
  }

  function OrNull(v: Json): Json {
    if v.Undefined? then Null else v
  }

  function ProjectFields(record: Json, columns: seq<Column>): (fields: seq<Field>)
    ensures |fields| == |columns|
    ensures forall i :: 0 <= i < |columns| ==>
              fields[i] == Field(columns[i].key, OrNull(ValueAt(record, columns[i].path)))
  {
    if columns == [] then []
    else [Field(columns[0].key, OrNull(ValueAt(record, columns[0].path)))] + ProjectFields(record, columns[1..])
  }

  function Project(record: Json, columns: seq<Column>): Json {
    Obj(ProjectFields(record, columns))
  }

  function ById(rank: Json -> int): (Json, Json) -> bool {
    (a: Json, b: Json) => rank(Get(a, ID)) <= rank(Get(b, ID))
  }

  function Projecting(columns: seq<Column>): Json -> Json {
    (row: Json) => Project(row, columns)
  }

  function ProjectRows(rows: seq<Json>, columns: seq<Column>, rank: Json -> int): seq<Json> {
    Map(Projecting(columns), Sort(rows, ById(rank)))
  }

  function OwnRows(rows: seq<Json>, invoice: Json): seq<Json> {
    Filter((row: Json) => Get(row, OWNER) == Get(invoice, ID), rows)
  }

  // ----- the published document -----

  const FILE: Text := [0x46, 0x69, 0x6C, 0x65, 0x5F, 0x5F, 0x63]
  const SLASH: CodeUnit := 0x2F

  /** The white space that `String.prototype.trim` removes. */
  predicate IsSpace(u: CodeUnit) {
    || 0x09 <= u <= 0x0D
    || u in {0x20, 0xA0, 0x1680, 0x2028, 0x2029, 0x202F, 0x205F, 0x3000, 0xFEFF}
    || 0x2000 <= u <= 0x200A
  }

  function Trim(t: Text): Text
    decreases |t|
  {
    if t != [] && IsSpace(t[0]) then Trim(t[1..])
    else if t != [] && IsSpace(t[|t| - 1]) then Trim(t[..|t| - 1])
    else t
  }

  /** `String(value ?? '').trim()`; `other` gives the texts of arrays and objects. */
  function TextOf(v: Json, other: Json -> Text): Text {
    match v
    case Undefined => []
    case Null => []
    case Bool(b) => if b then TRUE_TEXT else FALSE_TEXT
    case Num(digits) => digits
    case Str(t) => Trim(t)
    case _ => Trim(other(v))
  }

  predicate Truthy(v: Json) {
    !(v.Undefined? || v.Null? || v == Bool(false) || v == Num([0x30]) || v == Str([]))
  }

  function AfterLastSlash(t: Text): Text {
    if SLASH in t then
      if t[0] == SLASH && SLASH !in t[1..] then t[1..] else AfterLastSlash(t[1..])
    else t
  }

  /** The invoice's file URL ends in the Id of its document, which has a published version; no file, no
      document and no STEM mean that there is nothing to compare with. */
  predicate Published(live: LiveCase, other: Json -> Text) {
    var id := AfterLastSlash(TextOf(Get(live.invoice, FILE), other));
    && Truthy(live.invoice) && Truthy(live.stem) && Truthy(live.document)
    && id != []
    && TextOf(Get(live.document, ID), other) == id
    && TextOf(Get(live.document, PUBLISHED), other) != []
  }

  function ProjectionOf(live: LiveCase, columns: Columns, rank: Json -> int): Projection {
    Projection(
      ONE,
      Project(live.invoice, columns.invoice),
      Project(live.stem, columns.stem),
      Obj([Field(ID, Get(live.document, ID)), Field(PUBLISHED, Get(live.document, PUBLISHED))]),
      ProjectRows(OwnRows(live.lines, live.invoice), columns.line, rank),
      ProjectRows(OwnRows(live.extras, live.invoice), columns.extra, rank))
  }

  function LiveProjection(live: LiveCase, columns: Columns, rank: Json -> int,
                          other: Json -> Text): Option<Projection> {
    if Published(live, other) then Some(ProjectionOf(live, columns, rank)) else None
  }

  /** `{ ...value, key: replacement }` for a key the object has. */
  function With(fields: seq<Field>, key: Text, replacement: Json): seq<Field> {
    if fields == [] then []
    else [if fields[0].key == key then Field(key, replacement) else fields[0]] + With(fields[1..], key, replacement)
  }

  predicate Comparable(v: Json) {
    && v.Obj?
    && Get(v, VERSION) == ONE
    && Get(v, LINES).Arr?
    && Get(v, EXTRAS).Arr?
  }

  function Normalized(v: Json, rank: Json -> int): Json
    requires Comparable(v)
  {
    var lines := Sort(Get(v, LINES).items, ById(rank));
    var extras := Sort(Get(v, EXTRAS).items, ById(rank));
    Obj(With(With(v.fields, LINES, Arr(lines)), EXTRAS, Arr(extras)))
  }

  function Compare(stored: Stored, live: Option<Projection>, rank: Json -> int): Comparison {
    match stored
    case Blank => Legacy
    case NotJson => Snapshot(false)
    case Parsed(v) =>
      if !Comparable(v) || live.None? then Snapshot(false)
      else Snapshot(Stable(Normalized(v, rank)) == Stable(live.value.ToJson()))
  }

  // ----- reading fields -----

  lemma {:induction false} FieldInAt(fields: seq<Field>, i: nat)
    requires DistinctKeys(fields) && i < |fields|
    ensures FieldIn(fields, fields[i].key) == fields[i].value
  {
    if i > 0 {
      assert fields[0].key != fields[i].key;
      FieldInAt(fields[1..], i - 1);
    }
  }

  lemma {:induction false} FieldInMissing(fields: seq<Field>, key: Text)
    requires !HasKey(fields, key)
    ensures FieldIn(fields, key) == Undefined
  {
    if fields != [] {
      assert fields[0].key != key;
      assert forall i :: 0 <= i < |fields| - 1 ==> fields[1..][i] == fields[i + 1];
      FieldInMissing(fields[1..], key);
    }
  }

  lemma {:induction false} SameHasKeys(a: Json, b: Json, key: Text)
    requires a.Obj? && Same(a, b)
    ensures b.Obj? && (HasKey(a.fields, key) <==> HasKey(b.fields, key))
  {
    if HasKey(a.fields, key) {
      var i :| 0 <= i < |a.fields| && a.fields[i].key == key;
      assert HasKey(b.fields, a.fields[i].key);
    }
    if HasKey(b.fields, key) {
      var j :| 0 <= j < |b.fields| && b.fields[j].key == key;
      assert HasKey(a.fields, b.fields[j].key);
    }
  }

  lemma {:induction false} SameGet(a: Json, b: Json, key: Text)
    requires WellFormed(a) && WellFormed(b) && Same(a, b)
    ensures Same(Get(a, key), Get(b, key))
  {
    if a.Obj? {
      SameHasKeys(a, b, key);
      if HasKey(a.fields, key) {
        var i :| 0 <= i < |a.fields| && a.fields[i].key == key;
        var j :| 0 <= j < |b.fields| && b.fields[j].key == key;
        FieldInAt(a.fields, i);
        FieldInAt(b.fields, j);
      } else {
        FieldInMissing(a.fields, key);
        FieldInMissing(b.fields, key);
      }
    }
  }

  /** Objects are equal up to key order when they have the same keys with equal values. */
  lemma {:induction false} SameByKeys(a: Json, b: Json)
    requires WellFormed(a) && WellFormed(b) && a.Obj? && b.Obj?
    requires forall k :: HasKey(a.fields, k) <==> HasKey(b.fields, k)
    requires forall k :: HasKey(a.fields, k) ==> Same(Get(a, k), Get(b, k))
    ensures Same(a, b)
  {
    forall i | 0 <= i < |a.fields|
      ensures HasKey(b.fields, a.fields[i].key) && Size(a.fields[i].value) < Size(a)
      ensures forall j :: 0 <= j < |b.fields| && a.fields[i].key == b.fields[j].key ==>
                Same(a.fields[i].value, b.fields[j].value)
    {
      SizeOfField(a.fields, i);
      assert HasKey(a.fields, a.fields[i].key);
      FieldInAt(a.fields, i);
      forall j | 0 <= j < |b.fields| && a.fields[i].key == b.fields[j].key
        ensures Same(a.fields[i].value, b.fields[j].value)
      {
        FieldInAt(b.fields, j);
      }
    }
    forall j | 0 <= j < |b.fields| ensures HasKey(a.fields, b.fields[j].key) {
      assert HasKey(b.fields, b.fields[j].key);
    }
  }

  // ----- rows -----

  /** `rank` sees only what the serializer shows of an Id. */
  ghost predicate Respects(rank: Json -> int) {
    forall a, b {:trigger Same(a, b)} :: Same(a, b) ==> rank(a) == rank(b)
  }

  ghost predicate AllWellFormed(rows: seq<Json>) {
    forall i :: 0 <= i < |rows| ==> WellFormed(rows[i])
  }

  ghost predicate DistinctIds(rows: seq<Json>, rank: Json -> int) {
    DistinctBy(rows, (row: Json) => rank(Get(row, ID)))
  }

  ghost predicate OrderedRows(rows: seq<Json>, rank: Json -> int) {
    Sorted(rows, ById(rank)) && DistinctIds(rows, rank)
  }

  /** The same rows up to key order, in any order. */
  ghost predicate SameRows(stored: seq<Json>, live: seq<Json>) {
    multiset(Map(Stable, stored)) == multiset(Map(Stable, live))
  }

  lemma {:induction false} MapSort<A, B>(f: A -> B, s: seq<A>, le: (A, A) -> bool)
    ensures multiset(Map(f, Sort(s, le))) == multiset(Map(f, s))
  {
    SortPermutes(s, le);
    MapPermutes(f, Sort(s, le), s);
  }

  /** The rank of the Id in a row, read off its text. */
  ghost function RankOfText(t: Text, rank: Json -> int): int {
    if exists v :: WellFormed(v) && Stable(v) == t
    then var v :| WellFormed(v) && Stable(v) == t; rank(Get(v, ID))
    else 0
  }

  lemma {:induction false} RankOfStable(v: Json, rank: Json -> int)
    requires WellFormed(v) && Respects(rank)
    ensures RankOfText(Stable(v), rank) == rank(Get(v, ID))
  {
    var w :| WellFormed(w) && Stable(w) == Stable(v) && RankOfText(Stable(v), rank) == rank(Get(w, ID));
    StableDecidesSame(w, v);
    SameGet(w, v, ID);
  }

  ghost predicate TextsRanked(texts: seq<Text>, rows: seq<Json>, rank: Json -> int) {
    && |texts| == |rows|
    && forall i :: 0 <= i < |rows| ==>
         texts[i] == Stable(rows[i]) && RankOfText(texts[i], rank) == rank(Get(rows[i], ID))
  }

  lemma {:induction false} RankTexts(rows: seq<Json>, rank: Json -> int)
    requires AllWellFormed(rows) && Respects(rank)
    ensures TextsRanked(Map(Stable, rows), rows, rank)
  {
    forall i | 0 <= i < |rows| ensures RankOfText(Stable(rows[i]), rank) == rank(Get(rows[i], ID)) {
      RankOfStable(rows[i], rank);
    }
  }

  /** Ordered lists of rows with distinct Ids that hold the same texts hold them in the same order. */
  lemma {:induction false} OrderedRowsAgree(stored: seq<Json>, live: seq<Json>, rank: Json -> int)
    requires AllWellFormed(stored) && AllWellFormed(live) && Respects(rank)
    requires Sorted(stored, ById(rank)) && Sorted(live, ById(rank)) && DistinctIds(live, rank)
    requires SameRows(stored, live)
    ensures Map(Stable, stored) == Map(Stable, live)
  {
    var le := (t: Text, u: Text) => RankOfText(t, rank) <= RankOfText(u, rank);
    var a, b := Map(Stable, live), Map(Stable, stored);
    RankTexts(live, rank);
    RankTexts(stored, rank);
    assert Sorted(a, le) by {
      forall i, j | 0 <= i < j < |a| ensures le(a[i], a[j]) {
        assert ById(rank)(live[i], live[j]);
      }
    }
    assert Sorted(b, le) by {
      forall i, j | 0 <= i < j < |b| ensures le(b[i], b[j]) {
        assert ById(rank)(stored[i], stored[j]);
      }
    }
    assert Antisymmetric(a, le) by {
      forall t, u | t in a && u in a && le(t, u) && le(u, t) ensures t == u {
        var i :| 0 <= i < |a| && a[i] == t;
        var j :| 0 <= j < |a| && a[j] == u;
        SameKeySamePlace(live, (row: Json) => rank(Get(row, ID)), i, j);
      }
    }
    SortedUnique(a, b, le);
  }

  lemma ByIdIsPreorder(rank: Json -> int)
    ensures TotalPreorder(ById(rank))
  {
  }

  lemma {:induction false} SortedRowsWellFormed(rows: seq<Json>, rank: Json -> int)
    requires AllWellFormed(rows)
    ensures AllWellFormed(Sort(rows, ById(rank)))
  {
    var sorted := Sort(rows, ById(rank));
    SortKeepsElements(rows, ById(rank));
    forall i | 0 <= i < |sorted| ensures WellFormed(sorted[i]) {
      assert sorted[i] in rows;
    }
  }

  lemma {:induction false} SameTexts(a: seq<Json>, b: seq<Json>)
    requires AllWellFormed(a) && AllWellFormed(b)
    requires Same(Arr(a), Arr(b))
    ensures Map(Stable, a) == Map(Stable, b)
  {
    forall i | 0 <= i < |b| ensures Stable(a[i]) == Stable(b[i]) {
      StableDecidesSame(a[i], b[i]);
    }
  }

  /** The rows test of the comparison: ordering both sides by Id and comparing them one by one
      finds out exactly whether they are the same rows. */
  lemma {:induction false} RowsCompare(stored: seq<Json>, live: seq<Json>, rank: Json -> int)
    requires AllWellFormed(stored) && AllWellFormed(live) && Respects(rank)
    requires OrderedRows(live, rank)
    ensures Same(Arr(Sort(stored, ById(rank))), Arr(live)) <==> SameRows(stored, live)
  {
    var sorted := Sort(stored, ById(rank));
    SortedRowsWellFormed(stored, rank);
    assert SameRows(sorted, live) <==> SameRows(stored, live) by {
      MapSort(Stable, stored, ById(rank));
    }
    if Same(Arr(sorted), Arr(live)) {
      SameTexts(sorted, live);
    }
    if SameRows(sorted, live) {
      ByIdIsPreorder(rank);
      SortSorts(stored, ById(rank));
      OrderedRowsAgree(sorted, live, rank);
      PointwiseSame(sorted, live);
    }
  }

  lemma {:induction false} PointwiseSame(a: seq<Json>, b: seq<Json>)
    requires AllWellFormed(a) && AllWellFormed(b)
    requires Map(Stable, a) == Map(Stable, b)
    ensures Same(Arr(a), Arr(b))
  {
    assert |a| == |Map(Stable, a)| == |b|;
    WellFormedItemsFrom(a);
    forall i | 0 <= i < |a| ensures Size(a[i]) < Size(Arr(a)) && Same(a[i], b[i]) {
      WellFormedItem(a, i);
      assert Map(Stable, a)[i] == Map(Stable, b)[i];
      StableDecidesSame(a[i], b[i]);
    }
  }

  lemma {:induction false} WellFormedItemsFrom(items: seq<Json>)
    requires AllWellFormed(items)
    ensures WellFormedItems(items)
  {
    if items != [] {
      assert forall i :: 0 <= i < |items| - 1 ==> items[1..][i] == items[i + 1];
      WellFormedItemsFrom(items[1..]);
    }
  }

  // ----- well-formedness -----

  lemma {:induction false} FieldInWellFormed(fields: seq<Field>, key: Text)
    requires WellFormedFields(fields)
    ensures WellFormed(FieldIn(fields, key))
  {
    if fields != [] {
      FieldInWellFormed(fields[1..], key);
    }
  }

  lemma {:induction false} ValueAtWellFormed(v: Json, path: seq<Text>)
    requires WellFormed(v)
    ensures WellFormed(ValueAt(v, path))
    decreases |path|
  {
    if path != [] {
      if v.Obj? {
        FieldInWellFormed(v.fields, path[0]);
      } else {
        assert Get(v, path[0]) == Undefined && WellFormed(Undefined);
      }
      ValueAtWellFormed(Get(v, path[0]), path[1..]);
    }
  }

  ghost predicate DistinctColumns(columns: seq<Column>) {
    forall i, j :: 0 <= i < j < |columns| ==> columns[i].key != columns[j].key
  }

  lemma {:induction false} ProjectWellFormed(record: Json, columns: seq<Column>)
    requires WellFormed(record) && DistinctColumns(columns)
    ensures WellFormed(Project(record, columns))
  {
    var fields := ProjectFields(record, columns);
    forall i | 0 <= i < |fields| ensures WellFormed(fields[i].value) {
      ValueAtWellFormed(record, columns[i].path);
    }
    WellFormedFromFields(fields);
  }

  /** The row columns start with the Id of the row itself. */
  ghost predicate RowColumns(columns: seq<Column>) {
    columns != [] && columns[0] == Column(ID, [ID]) && DistinctColumns(columns)
  }

  lemma ProjectedId(row: Json, columns: seq<Column>, rank: Json -> int)
    requires RowColumns(columns) && Respects(rank)
    ensures rank(Get(Project(row, columns), ID)) == rank(Get(row, ID))
  {
    var fields := ProjectFields(row, columns);
    FieldInAt(fields, 0);
    assert ValueAt(row, [ID]) == Get(row, ID);
    assert Same(Undefined, Null);
  }

  lemma {:induction false} MapCompose<A, B, C>(f: A -> B, g: B -> C, h: A -> C, s: seq<A>)
    requires forall x :: x in s ==> h(x) == g(f(x))
    ensures Map(g, Map(f, s)) == Map(h, s)
  {
    forall i | 0 <= i < |s| ensures Map(g, Map(f, s))[i] == Map(h, s)[i] {
      assert s[i] in s;
    }
  }

  lemma {:induction false} ProjectSortedRows(sorted: seq<Json>, columns: seq<Column>, rank: Json -> int)
    requires AllWellFormed(sorted) && RowColumns(columns) && Respects(rank)
    requires Sorted(sorted, ById(rank)) && DistinctIds(sorted, rank)
    ensures var live := Map(Projecting(columns), sorted);
            AllWellFormed(live) && OrderedRows(live, rank)
  {
    var live := Map(Projecting(columns), sorted);
    forall i | 0 <= i < |sorted|
      ensures WellFormed(live[i]) && rank(Get(live[i], ID)) == rank(Get(sorted[i], ID))
    {
      ProjectWellFormed(sorted[i], columns);
      ProjectedId(sorted[i], columns, rank);
    }
    forall i, j | 0 <= i < j < |live| ensures ById(rank)(live[i], live[j]) {
      assert ById(rank)(sorted[i], sorted[j]);
    }
  }

  /** The projection orders its rows by Id. */
  lemma ProjectedRowsOrdered(rows: seq<Json>, columns: seq<Column>, rank: Json -> int)
    requires AllWellFormed(rows) && RowColumns(columns) && Respects(rank) && DistinctIds(rows, rank)
    ensures AllWellFormed(ProjectRows(rows, columns, rank)) && OrderedRows(ProjectRows(rows, columns, rank), rank)
  {
    SortedRowsWellFormed(rows, rank);
    ByIdIsPreorder(rank);
    SortSorts(rows, ById(rank));
    SortPermutes(rows, ById(rank));
    PermutationKeepsDistinct(rows, Sort(rows, ById(rank)), (row: Json) => rank(Get(row, ID)));
    ProjectSortedRows(Sort(rows, ById(rank)), columns, rank);
  }

  /** Ordering the rows before projecting them loses none and adds none. */
  lemma {:induction false} ProjectedRowsKept(rows: seq<Json>, columns: seq<Column>, rank: Json -> int)
    ensures SameRows(ProjectRows(rows, columns, rank), Map(Projecting(columns), rows))
  {
    var project := Projecting(columns);
    var text := (row: Json) => Stable(Project(row, columns));
    MapCompose(project, Stable, text, Sort(rows, ById(rank)));
    MapCompose(project, Stable, text, rows);
    MapSort(text, rows, ById(rank));
  }

  // ----- the comparison -----

  lemma {:induction false} WithReplaces(fields: seq<Field>, key: Text, replacement: Json)
    ensures var w := With(fields, key, replacement);
            && |w| == |fields|
            && forall i :: 0 <= i < |fields| ==>
                 w[i] == if fields[i].key == key then Field(key, replacement) else fields[i]
  {
    if fields != [] {
      WithReplaces(fields[1..], key, replacement);
    }
  }

  lemma {:induction false} WithFields(fields: seq<Field>, key: Text, replacement: Json)
    requires DistinctKeys(fields) && WellFormedFields(fields) && WellFormed(replacement)
    ensures DistinctKeys(With(fields, key, replacement)) && WellFormedFields(With(fields, key, replacement))
  {
    var w := With(fields, key, replacement);
    WithReplaces(fields, key, replacement);
    forall i | 0 <= i < |w| ensures WellFormed(w[i].value) {
      WellFormedField(fields, i);
    }
    WellFormedFromFields(w);
  }

  lemma {:induction false} WithReads(fields: seq<Field>, key: Text, replacement: Json, k: Text)
    requires DistinctKeys(fields) && WellFormedFields(fields) && WellFormed(replacement)
    requires HasKey(fields, key)
    ensures HasKey(With(fields, key, replacement), k) <==> HasKey(fields, k)
    ensures FieldIn(With(fields, key, replacement), k) == if k == key then replacement else FieldIn(fields, k)
  {
    var w := With(fields, key, replacement);
    WithFields(fields, key, replacement);
    WithReplaces(fields, key, replacement);
    if HasKey(fields, k) {
      var i :| 0 <= i < |fields| && fields[i].key == k;
      assert w[i].key == k;
      FieldInAt(fields, i);
      FieldInAt(w, i);
    } else {
      assert !HasKey(w, k);
      FieldInMissing(fields, k);
      FieldInMissing(w, k);
    }
  }

  lemma {:induction false} PresentKey(fields: seq<Field>, key: Text)
    requires FieldIn(fields, key) != Undefined
    ensures HasKey(fields, key)
  {
    if !HasKey(fields, key) {
      FieldInMissing(fields, key);
    }
  }

  lemma {:induction false} ReadWellFormedRows(v: Json, key: Text, rank: Json -> int)
    requires WellFormed(v) && Get(v, key).Arr?
    ensures AllWellFormed(Get(v, key).items)
    ensures WellFormed(Arr(Sort(Get(v, key).items, ById(rank))))
  {
    var items := Get(v, key).items;
    FieldInWellFormed(v.fields, key);
    forall i | 0 <= i < |items| ensures WellFormed(items[i]) {
      WellFormedItem(items, i);
    }
    SortedRowsWellFormed(items, rank);
    WellFormedItemsFrom(Sort(items, ById(rank)));
  }

  /** Normalizing a stored value orders its rows and changes nothing else. */
  lemma {:induction false} NormalizedReads(v: Json, rank: Json -> int, k: Text)
    requires WellFormed(v) && Comparable(v)
    ensures WellFormed(Normalized(v, rank))
    ensures HasKey(Normalized(v, rank).fields, k) <==> HasKey(v.fields, k)
    ensures Get(Normalized(v, rank), k)
         == if k == LINES || k == EXTRAS then Arr(Sort(Get(v, k).items, ById(rank))) else Get(v, k)
  {
    var lines := Arr(Sort(Get(v, LINES).items, ById(rank)));
    var extras := Arr(Sort(Get(v, EXTRAS).items, ById(rank)));
    ReadWellFormedRows(v, LINES, rank);
    ReadWellFormedRows(v, EXTRAS, rank);
    PresentKey(v.fields, LINES);
    PresentKey(v.fields, EXTRAS);
    var once := With(v.fields, LINES, lines);
    WithFields(v.fields, LINES, lines);
    WithReads(v.fields, LINES, lines, k);
    WithReads(v.fields, LINES, lines, EXTRAS);
    WithFields(once, EXTRAS, extras);
    WithReads(once, EXTRAS, extras, k);
    assert LINES != EXTRAS;
  }

  predicate IsSnapshotKey(k: Text) {
    k in [VERSION, INVOICE, STEM, PDF, LINES, EXTRAS]
  }

  ghost predicate WellFormedProjection(p: Projection) {
    && WellFormed(p.version) && WellFormed(p.invoice) && WellFormed(p.stem) && WellFormed(p.pdf)
    && AllWellFormed(p.lines) && AllWellFormed(p.extras)
  }

  lemma ProjectionReads(p: Projection)
    requires WellFormedProjection(p)
    ensures WellFormed(p.ToJson())
    ensures forall k :: HasKey(p.ToJson().fields, k) <==> IsSnapshotKey(k)
    ensures Get(p.ToJson(), VERSION) == p.version && Get(p.ToJson(), INVOICE) == p.invoice
    ensures Get(p.ToJson(), STEM) == p.stem && Get(p.ToJson(), PDF) == p.pdf
    ensures Get(p.ToJson(), LINES) == Arr(p.lines) && Get(p.ToJson(), EXTRAS) == Arr(p.extras)
  {
    var fields := p.ToJson().fields;
    WellFormedItemsFrom(p.lines);
    WellFormedItemsFrom(p.extras);
    SnapshotKeysDiffer();
    assert DistinctKeys(fields);
    WellFormedFromFields(fields);
    FieldInAt(fields, 0);
    FieldInAt(fields, 1);
    FieldInAt(fields, 2);
    FieldInAt(fields, 3);
    FieldInAt(fields, 4);
    FieldInAt(fields, 5);
    forall k ensures HasKey(fields, k) <==> IsSnapshotKey(k) {
      if IsSnapshotKey(k) {
        var i :| 0 <= i < 6 && [VERSION, INVOICE, STEM, PDF, LINES, EXTRAS][i] == k;
        assert fields[i].key == k;
      }
      if HasKey(fields, k) {
        var i :| 0 <= i < |fields| && fields[i].key == k;
      }
    }
  }

  lemma SnapshotKeysDiffer()
    ensures |VERSION| == |INVOICE| == 7 && VERSION[0] != INVOICE[0]
    ensures |STEM| == 4 && |PDF| == 3 && |LINES| == 5 && |EXTRAS| == 6
  {
  }

  ghost predicate OnlySnapshotKeys(fields: seq<Field>) {
    forall k :: HasKey(fields, k) <==> IsSnapshotKey(k)
  }

  /** A stored value is the live projection up to key order and row order. */
  ghost predicate Agrees(v: Json, p: Projection)
    requires Comparable(v)
  {
    && OnlySnapshotKeys(v.fields)
    && Same(Get(v, INVOICE), p.invoice)
    && Same(Get(v, STEM), p.stem)
    && Same(Get(v, PDF), p.pdf)
    && SameRows(Get(v, LINES).items, p.lines)
    && SameRows(Get(v, EXTRAS).items, p.extras)
  }

  lemma {:induction false} NormalizedRowsCompare(v: Json, rows: seq<Json>, key: Text, rank: Json -> int)
    requires WellFormed(v) && Comparable(v) && Respects(rank)
    requires key == LINES || key == EXTRAS
    requires AllWellFormed(rows) && OrderedRows(rows, rank)
    ensures Same(Get(Normalized(v, rank), key), Arr(rows)) <==> SameRows(Get(v, key).items, rows)
  {
    NormalizedReads(v, rank, key);
    ReadWellFormedRows(v, key, rank);
    RowsCompare(Get(v, key).items, rows, rank);
  }

  lemma {:induction false} NormalizedKeeps(v: Json, rank: Json -> int)
    requires WellFormed(v) && Comparable(v)
    ensures WellFormed(Normalized(v, rank))
    ensures forall k :: HasKey(Normalized(v, rank).fields, k) <==> HasKey(v.fields, k)
    ensures forall k | k in [VERSION, INVOICE, STEM, PDF] :: Get(Normalized(v, rank), k) == Get(v, k)
  {
    SnapshotKeysDiffer();
    NormalizedReads(v, rank, LINES);
    forall k
      ensures HasKey(Normalized(v, rank).fields, k) <==> HasKey(v.fields, k)
      ensures k in [VERSION, INVOICE, STEM, PDF] ==> Get(Normalized(v, rank), k) == Get(v, k)
    {
      NormalizedReads(v, rank, k);
    }
  }

  lemma {:induction false} MatchAgrees(v: Json, p: Projection, rank: Json -> int)
    requires WellFormed(v) && Comparable(v) && WellFormedProjection(p) && Respects(rank)
    requires OrderedRows(p.lines, rank) && OrderedRows(p.extras, rank)
    requires Same(Normalized(v, rank), p.ToJson())
    ensures Agrees(v, p)
  {
    var n, live := Normalized(v, rank), p.ToJson();
    NormalizedKeeps(v, rank);
    ProjectionReads(p);
    SameGet(n, live, INVOICE);
    SameGet(n, live, STEM);
    SameGet(n, live, PDF);
    SameGet(n, live, LINES);
    SameGet(n, live, EXTRAS);
    NormalizedRowsCompare(v, p.lines, LINES, rank);
    NormalizedRowsCompare(v, p.extras, EXTRAS, rank);
    forall k ensures HasKey(v.fields, k) <==> IsSnapshotKey(k) {
      SameHasKeys(n, live, k);
    }
  }

  lemma {:induction false} AgreeingReads(v: Json, p: Projection, rank: Json -> int, k: Text)
    requires WellFormed(v) && Comparable(v) && WellFormedProjection(p) && p.version == ONE && Respects(rank)
    requires OrderedRows(p.lines, rank) && OrderedRows(p.extras, rank)
    requires Agrees(v, p) && IsSnapshotKey(k)
    ensures Same(Get(Normalized(v, rank), k), Get(p.ToJson(), k))
  {
    NormalizedKeeps(v, rank);
    ProjectionReads(p);
    SnapshotKeysDiffer();
    if k == VERSION {
      assert Get(Normalized(v, rank), k) == ONE;
    } else if k == LINES {
      NormalizedRowsCompare(v, p.lines, LINES, rank);
    } else if k == EXTRAS {
      NormalizedRowsCompare(v, p.extras, EXTRAS, rank);
    }
  }

  lemma {:induction false} AgreeingMatches(v: Json, p: Projection, rank: Json -> int)
    requires WellFormed(v) && Comparable(v) && WellFormedProjection(p) && p.version == ONE && Respects(rank)
    requires OrderedRows(p.lines, rank) && OrderedRows(p.extras, rank)
    requires Agrees(v, p)
    ensures Same(Normalized(v, rank), p.ToJson())
  {
    var n, live := Normalized(v, rank), p.ToJson();
    NormalizedKeeps(v, rank);
    ProjectionReads(p);
    forall k | HasKey(n.fields, k) ensures Same(Get(n, k), Get(live, k)) {
      AgreeingReads(v, p, rank, k);
    }
    SameByKeys(n, live);
  }

  lemma {:induction false} NormalizedAgrees(v: Json, p: Projection, rank: Json -> int)
    requires WellFormed(v) && Comparable(v) && WellFormedProjection(p) && p.version == ONE && Respects(rank)
    requires OrderedRows(p.lines, rank) && OrderedRows(p.extras, rank)
    ensures Same(Normalized(v, rank), p.ToJson()) <==> Agrees(v, p)
  {
    if Same(Normalized(v, rank), p.ToJson()) {
      MatchAgrees(v, p, rank);
    } else if Agrees(v, p) {
      AgreeingMatches(v, p, rank);
    }
  }

  lemma {:induction false} TextsAgree(v: Json, p: Projection, rank: Json -> int)
    requires WellFormed(v) && Comparable(v) && WellFormedProjection(p)
    ensures Stable(Normalized(v, rank)) == Stable(p.ToJson()) <==> Same(Normalized(v, rank), p.ToJson())
  {
    NormalizedKeeps(v, rank);
    ProjectionReads(p);
    StableDecidesSame(Normalized(v, rank), p.ToJson());
  }

  lemma {:induction false} ComparisonAgrees(v: Json, p: Projection, rank: Json -> int)
    requires WellFormed(v) && WellFormedProjection(p) && p.version == ONE && Respects(rank)
    requires OrderedRows(p.lines, rank) && OrderedRows(p.extras, rank)
    ensures Compare(Parsed(v), Some(p), rank) == Snapshot(Comparable(v) && Agrees(v, p))
  {
    if Comparable(v) {
      TextsAgree(v, p, rank);
      NormalizedAgrees(v, p, rank);
    }
  }

  ghost predicate UsableCase(live: LiveCase, columns: Columns, rank: Json -> int) {
    && WellFormed(live.invoice) && WellFormed(live.document) && WellFormed(live.stem)
    && AllWellFormed(live.lines) && AllWellFormed(live.extras)
    && DistinctColumns(columns.invoice) && DistinctColumns(columns.stem)
    && RowColumns(columns.line) && RowColumns(columns.extra)
    && DistinctOwnIds(live.lines, live.invoice, rank)
    && DistinctOwnIds(live.extras, live.invoice, rank)
  }

  /** Different rows of the invoice have different Ids. */
  ghost predicate DistinctOwnIds(rows: seq<Json>, invoice: Json, rank: Json -> int) {
    forall i, j :: 0 <= i < j < |rows| && Get(rows[i], OWNER) == Get(rows[j], OWNER) == Get(invoice, ID) ==>
      rank(Get(rows[i], ID)) != rank(Get(rows[j], ID))
  }

  lemma OwnIdsDistinct(rows: seq<Json>, invoice: Json, rank: Json -> int)
    requires DistinctOwnIds(rows, invoice, rank)
    ensures DistinctIds(OwnRows(rows, invoice), rank)
  {
    OwnRowsAre(rows, invoice);
    FilterKeepsDistinct(Owned(invoice), rows, (row: Json) => rank(Get(row, ID)));
  }

  lemma OwnRowsWellFormed(rows: seq<Json>, invoice: Json)
    requires AllWellFormed(rows)
    ensures AllWellFormed(OwnRows(rows, invoice))
  {
    var own := OwnRows(rows, invoice);
    OwnRowsAre(rows, invoice);
    FilterMembers(Owned(invoice), rows);
    forall i | 0 <= i < |own| ensures WellFormed(own[i]) {
      assert own[i] in rows;
    }
  }

  lemma {:induction false} PdfWellFormed(document: Json)
    requires WellFormed(document)
    ensures WellFormed(Obj([Field(ID, Get(document, ID)), Field(PUBLISHED, Get(document, PUBLISHED))]))
  {
    var fields := [Field(ID, Get(document, ID)), Field(PUBLISHED, Get(document, PUBLISHED))];
    ValueAtWellFormed(document, [ID]);
    ValueAtWellFormed(document, [PUBLISHED]);
    assert ValueAt(document, [ID]) == Get(document, ID);
    assert ValueAt(document, [PUBLISHED]) == Get(document, PUBLISHED);
    assert |ID| != |PUBLISHED|;
    WellFormedFromFields(fields);
  }

  lemma OwnRowsProjected(rows: seq<Json>, invoice: Json, columns: seq<Column>, rank: Json -> int)
    requires AllWellFormed(rows) && RowColumns(columns) && Respects(rank) && DistinctIds(OwnRows(rows, invoice), rank)
    ensures RowsReady(ProjectRows(OwnRows(rows, invoice), columns, rank), rank)
  {
    OwnRowsWellFormed(rows, invoice);
    ProjectedRowsOrdered(OwnRows(rows, invoice), columns, rank);
  }

  ghost predicate RowsReady(rows: seq<Json>, rank: Json -> int) {
    AllWellFormed(rows) && OrderedRows(rows, rank)
  }

  lemma RecordsUsable(live: LiveCase, columns: Columns, rank: Json -> int)
    requires WellFormed(live.invoice) && WellFormed(live.document) && WellFormed(live.stem)
    requires DistinctColumns(columns.invoice) && DistinctColumns(columns.stem)
    ensures var p := ProjectionOf(live, columns, rank);
            WellFormed(p.version) && WellFormed(p.invoice) && WellFormed(p.stem) && WellFormed(p.pdf)
  {
    ProjectWellFormed(live.invoice, columns.invoice);
    ProjectWellFormed(live.stem, columns.stem);
    PdfWellFormed(live.document);
  }

  lemma ProjectionUsable(live: LiveCase, columns: Columns, rank: Json -> int)
    requires Respects(rank) && UsableCase(live, columns, rank)
    ensures var p := ProjectionOf(live, columns, rank);
            WellFormedProjection(p) && RowsReady(p.lines, rank) && RowsReady(p.extras, rank)
  {
    RecordsUsable(live, columns, rank);
    OwnIdsDistinct(live.lines, live.invoice, rank);
    OwnIdsDistinct(live.extras, live.invoice, rank);
    OwnRowsProjected(live.lines, live.invoice, columns.line, rank);
    OwnRowsProjected(live.extras, live.invoice, columns.extra, rank);
  }

  /** The live projection with its rows left in the order Salesforce gave them. */
  function UnorderedProjection(live: LiveCase, columns: Columns, rank: Json -> int): Projection {
    ProjectionOf(live, columns, rank).(
      lines := Map(Projecting(columns.line), OwnRows(live.lines, live.invoice)),
      extras := Map(Projecting(columns.extra), OwnRows(live.extras, live.invoice)))
  }

  lemma AgreesUpToOrder(v: Json, p: Projection, q: Projection)
    requires Comparable(v)
    requires q == p.(lines := q.lines, extras := q.extras)
    requires SameRows(p.lines, q.lines) && SameRows(p.extras, q.extras)
    ensures Agrees(v, p) <==> Agrees(v, q)
  {
  }

  lemma {:induction false} ProjectionMatches(v: Json, live: LiveCase, columns: Columns, rank: Json -> int)
    requires WellFormed(v) && Respects(rank) && UsableCase(live, columns, rank)
    ensures Compare(Parsed(v), Some(ProjectionOf(live, columns, rank)), rank)
         == Snapshot(Comparable(v) && Agrees(v, UnorderedProjection(live, columns, rank)))
  {
    var p, q := ProjectionOf(live, columns, rank), UnorderedProjection(live, columns, rank);
    assert Compare(Parsed(v), Some(p), rank) == Snapshot(Comparable(v) && Agrees(v, p)) by {
      ProjectionUsable(live, columns, rank);
      ComparisonAgrees(v, p, rank);
    }
    assert SameRows(p.lines, q.lines) && SameRows(p.extras, q.extras) by {
      ProjectedRowsKept(OwnRows(live.lines, live.invoice), columns.line, rank);
      ProjectedRowsKept(OwnRows(live.extras, live.invoice), columns.extra, rank);
    }
    if Comparable(v) {
      AgreesUpToOrder(v, p, q);
    }
  }

  // ----- what matches, in terms of the live records -----

  /** The row names the invoice as its owner. */
  function Owned(invoice: Json): Json -> bool {
    (row: Json) => Get(row, OWNER) == Get(invoice, ID)
  }

  /** The stored rows are those live rows that name the invoice as their owner, each as often as it is listed,
      in any order. */
  ghost predicate HoldsOwnRows(stored: seq<Json>, rows: seq<Json>, invoice: Json, columns: seq<Column>) {
    SameRows(stored, Map(Projecting(columns), Filter(Owned(invoice), rows)))
  }

  /** The stored value shows the live records and nothing else, up to the order of keys and rows. */
  ghost predicate ShowsLive(v: Json, live: LiveCase, columns: Columns)
    requires Comparable(v)
  {
    && OnlySnapshotKeys(v.fields)
    && Same(Get(v, INVOICE), Project(live.invoice, columns.invoice))
    && Same(Get(v, STEM), Project(live.stem, columns.stem))
    && Same(Get(v, PDF), Obj([Field(ID, Get(live.document, ID)), Field(PUBLISHED, Get(live.document, PUBLISHED))]))
    && HoldsOwnRows(Get(v, LINES).items, live.lines, live.invoice, columns.line)
    && HoldsOwnRows(Get(v, EXTRAS).items, live.extras, live.invoice, columns.extra)
  }

  lemma {:induction false} OwnRowsAre(rows: seq<Json>, invoice: Json)
    ensures OwnRows(rows, invoice) == Filter(Owned(invoice), rows)
  {
    if rows != [] {
      OwnRowsAre(rows[1..], invoice);
    }
  }

  /** The rows compared are the listed rows of the invoice, each as often as it is listed. */
  lemma OwnRowCounts(rows: seq<Json>, invoice: Json, row: Json)
    ensures multiset(OwnRows(rows, invoice))[row]
         == if Get(row, OWNER) == Get(invoice, ID) then multiset(rows)[row] else 0
  {
    OwnRowsAre(rows, invoice);
    FilterCounts(Owned(invoice), rows, row);
  }

  /** The Id is the whole text, or what follows its last slash. */
  predicate IsLastPart(text: Text, id: Text) {
    && SLASH !in id && |id| <= |text| && text[|text| - |id|..] == id
    && (|id| < |text| ==> text[|text| - |id| - 1] == SLASH)
  }

  lemma NoSlash(text: Text, id: Text)
    requires SLASH !in text
    ensures IsLastPart(text, id) <==> text == id
  {
    assert |id| < |text| ==> text[|text| - |id| - 1] != SLASH;
    assert |id| == |text| ==> text[|text| - |id|..] == text;
  }

  lemma SlashFirst(text: Text, id: Text)
    requires text != [] && text[0] == SLASH && SLASH !in text[1..]
    ensures IsLastPart(text, id) <==> text[1..] == id
  {
    assert forall k :: 0 < k < |text| ==> text[k] == text[1..][k - 1];
    assert |id| == |text| ==> text[|text| - |id|..] == text;
    assert |id| == |text| - 1 ==> text[|text| - |id|..] == text[1..];
  }

  lemma LastPartTail(text: Text, id: Text)
    requires text != [] && SLASH in text[1..]
    ensures IsLastPart(text, id) <==> IsLastPart(text[1..], id)
  {
    var rest := text[1..];
    assert |id| <= |rest| ==> text[|text| - |id|..] == rest[|rest| - |id|..];
    assert |id| == |text| ==> text[|text| - |id|..] == text;
    assert |id| == |rest| ==> rest[|rest| - |id|..] == rest;
    assert forall u :: u in rest ==> u in text;
  }

  lemma {:induction false} LastPartIff(text: Text, id: Text)
    ensures AfterLastSlash(text) == id <==> IsLastPart(text, id)
    decreases |text|
  {
    if SLASH in text {
      var rest := text[1..];
      assert text == [text[0]] + rest;
      if text[0] == SLASH && SLASH !in rest {
        SlashFirst(text, id);
      } else {
        LastPartIff(rest, id);
        LastPartTail(text, id);
      }
    } else {
      NoSlash(text, id);
    }
  }

  /** There is a STEM, the file URL of the invoice ends in the Id of its document, and the document is
      published. */
  predicate NamesDocument(live: LiveCase, other: Json -> Text) {
    var id := TextOf(Get(live.document, ID), other);
    && live.stem !in {Undefined, Null, Bool(false), Num([0x30]), Str([])}
    && id != [] && IsLastPart(TextOf(Get(live.invoice, FILE), other), id)
    && TextOf(Get(live.document, PUBLISHED), other) != []
  }

  lemma PublishedIff(live: LiveCase, other: Json -> Text)
    ensures Published(live, other) <==> NamesDocument(live, other)
  {
    LastPartIff(TextOf(Get(live.invoice, FILE), other), TextOf(Get(live.document, ID), other));
  }

  lemma AgreesIff(v: Json, live: LiveCase, columns: Columns, rank: Json -> int)
    requires Comparable(v)
    ensures Agrees(v, UnorderedProjection(live, columns, rank)) <==> ShowsLive(v, live, columns)
  {
    OwnRowsAre(live.lines, live.invoice);
    OwnRowsAre(live.extras, live.invoice);
  }

  /** What lies from `i` to `j`, with white space all around it and none at its ends. */
  ghost predicate Within(t: Text, inner: Text, i: nat, j: nat) {
    && i <= j <= |t| && inner == t[i..j]
    && (forall k :: 0 <= k < i || j <= k < |t| ==> IsSpace(t[k]))
    && (i < j ==> !IsSpace(t[i]) && !IsSpace(t[j - 1]))
  }

  lemma {:induction false} TrimIs(t: Text) returns (i: nat, j: nat)
    ensures Within(t, Trim(t), i, j)
    decreases |t|
  {
    i, j := 0, |t|;
    if t != [] && IsSpace(t[0]) {
      i, j := TrimIs(t[1..]);
      FrontSpace(t, Trim(t), i, j);
      i, j := i + 1, j + 1;
    } else if t != [] && IsSpace(t[|t| - 1]) {
      i, j := TrimIs(t[..|t| - 1]);
      BackSpace(t, Trim(t), i, j);
    }
  }

  lemma FrontSpace(t: Text, inner: Text, i: nat, j: nat)
    requires t != [] && IsSpace(t[0]) && Within(t[1..], inner, i, j)
    ensures Within(t, inner, i + 1, j + 1)
  {
    assert forall k :: 0 < k < |t| ==> t[k] == t[1..][k - 1];
    assert t[i + 1..j + 1] == t[1..][i..j];
  }

  lemma BackSpace(t: Text, inner: Text, i: nat, j: nat)
    requires t != [] && IsSpace(t[|t| - 1]) && Within(t[..|t| - 1], inner, i, j)
    ensures Within(t, inner, i, j)
  {
    assert forall k :: 0 <= k < |t| - 1 ==> t[k] == t[..|t| - 1][k];
    assert t[i..j] == t[..|t| - 1][i..j];
  }

  /** The text of a number or a Boolean is its JSON text, that of a missing value is empty, and that of a string is
      what is between the white space around it. */
  lemma TextOfIs(v: Json, other: Json -> Text)
    ensures v.Num? || v.Bool? ==> TextOf(v, other) == Stable(v)
    ensures v.Undefined? || v.Null? ==> TextOf(v, other) == []
    ensures v.Str? ==> exists i, j :: Within(v.s, TextOf(v, other), i, j)
  {
    if v.Str? {
      var i, j := TrimIs(v.s);
      assert Within(v.s, TextOf(v, other), i, j);
    }
  }

  /** A stored snapshot matches exactly when the invoice names a published document and the snapshot has
      the right shape and shows the live records, with all lines and extra costs of the invoice and no
      others, up to the order of keys in every object and the order of the rows. */
  lemma {:induction false} SnapshotMatches(v: Json, live: LiveCase, columns: Columns, rank: Json -> int,
                                           other: Json -> Text)
    requires WellFormed(v) && Respects(rank) && UsableCase(live, columns, rank)
    ensures Compare(Parsed(v), LiveProjection(live, columns, rank, other), rank)
         == Snapshot(NamesDocument(live, other) && Comparable(v) && ShowsLive(v, live, columns))
  {
    PublishedIff(live, other);
    if Published(live, other) {
      ProjectionMatches(v, live, columns, rank);
      if Comparable(v) {
        AgreesIff(v, live, columns, rank);
      }
    }
  }

  /** A path is followed from its first key to its last. */
  lemma {:induction false} PathIsFollowed(v: Json, path: seq<Text>, key: Text)
    ensures ValueAt(v, path + [key]) == Get(ValueAt(v, path), key)
    ensures ValueAt(v, []) == v
    decreases |path|
  {
    if path == [] {
      assert [] + [key] == [key] && [key][1..] == [];
    } else {
      assert (path + [key])[0] == path[0] && (path + [key])[1..] == path[1..] + [key];
      PathIsFollowed(Get(v, path[0]), path[1..], key);
    }
  }
}
