/** A value that may be missing: the source's `null`, `undefined` and blank. */
module Options {

  datatype Option<+T> = None | Some(value: T)

  /** The first value that is there. */
  function FirstSome<T>(values: seq<Option<T>>): Option<T> {
    if values == [] then None else if values[0].Some? then values[0] else FirstSome(values[1..])
  }

  /** `v` stands behind missing values only. */
  predicate IsFirst<T(==)>(values: seq<Option<T>>, v: T) {
    exists k :: 0 <= k < |values| && values[k] == Some(v) && forall j :: 0 <= j < k ==> values[j].None?
  }

  predicate NoValue<T>(values: seq<Option<T>>) {
    forall k :: 0 <= k < |values| ==> values[k].None?
  }

  lemma {:induction false} FirstIs<T(!new)>(values: seq<Option<T>>)
    ensures FirstSome(values).Some? ==> IsFirst(values, FirstSome(values).value)
    ensures FirstSome(values).None? <==> NoValue(values)
    ensures forall v :: IsFirst(values, v) ==> FirstSome(values) == Some(v)
  {
    if values != [] && values[0].None? {
      var rest := values[1..];
      FirstIs(rest);
      assert forall k :: 0 < k < |values| ==> values[k] == rest[k - 1];
      if FirstSome(rest).Some? {
        var k :| 0 <= k < |rest| && rest[k] == FirstSome(rest) && forall j :: 0 <= j < k ==> rest[j].None?;
        assert values[k + 1] == FirstSome(rest);
      }
      forall v | IsFirst(values, v) ensures IsFirst(rest, v) {
        var k :| 0 <= k < |values| && values[k] == Some(v) && forall j :: 0 <= j < k ==> values[j].None?;
        assert rest[k - 1] == Some(v);
        assert forall j :: 0 <= j < k - 1 ==> rest[j] == values[j + 1];
      }
    } else if values != [] {
      assert IsFirst(values, values[0].value);
    }
  }
}
