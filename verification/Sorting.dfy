/** Stable sorting by a comparison, as `Array.prototype.sort` does it.
    The components below sort rows before they walk them; what they need from the sort is
    that it permutes, that it orders, and that the order of the input does not show in the
    result when no two rows tie. */
module Sorting {

  ghost predicate TotalPreorder<T(!new)>(le: (T, T) -> bool) {
    && (forall x, y :: le(x, y) || le(y, x))
    && (forall x, y, z :: le(x, y) && le(y, z) ==> le(x, z))
  }

  ghost predicate Sorted<T>(s: seq<T>, le: (T, T) -> bool) {
    forall i, j :: 0 <= i < j < |s| ==> le(s[i], s[j])
  }

  function Insert<T>(x: T, s: seq<T>, le: (T, T) -> bool): seq<T> {
    if s == [] then [x]
    else if le(x, s[0]) then [x] + s
    else [s[0]] + Insert(x, s[1..], le)
  }

  /** Earlier elements stay in front of later ones that compare equal. */
  function Sort<T>(s: seq<T>, le: (T, T) -> bool): seq<T> {
    if s == [] then [] else Insert(s[0], Sort(s[1..], le), le)
  }

  lemma {:induction false} InsertPermutes<T>(x: T, s: seq<T>, le: (T, T) -> bool)
    ensures multiset(Insert(x, s, le)) == multiset{x} + multiset(s)
  {
    if s != [] && !le(x, s[0]) {
      InsertPermutes(x, s[1..], le);
      assert s == [s[0]] + s[1..];
    }
  }

  lemma {:induction false} SortPermutes<T>(s: seq<T>, le: (T, T) -> bool)
    ensures multiset(Sort(s, le)) == multiset(s)
    ensures |Sort(s, le)| == |s|
  {
    if s != [] {
      SortPermutes(s[1..], le);
      InsertPermutes(s[0], Sort(s[1..], le), le);
      assert s == [s[0]] + s[1..];
    }
    assert |multiset(Sort(s, le))| == |multiset(s)|;
  }

  lemma {:induction false} SortKeepsElements<T(!new)>(s: seq<T>, le: (T, T) -> bool)
    ensures forall x :: x in Sort(s, le) <==> x in s
  {
    SortPermutes(s, le);
    forall x ensures x in Sort(s, le) <==> x in s {
      assert x in Sort(s, le) <==> x in multiset(Sort(s, le));
      assert x in s <==> x in multiset(s);
    }
  }

  lemma {:induction false} InsertSorts<T(!new)>(x: T, s: seq<T>, le: (T, T) -> bool)
    requires TotalPreorder(le) && Sorted(s, le)
    ensures Sorted(Insert(x, s, le), le)
  {
    if s != [] && !le(x, s[0]) {
      InsertSorts(x, s[1..], le);
      InsertPermutes(x, s[1..], le);
      var t := Insert(x, s[1..], le);
      forall y | y in t ensures le(s[0], y) {
        assert y in multiset(t);
        assert y == x || y in s[1..];
      }
      assert Insert(x, s, le) == [s[0]] + t;
      forall i, j | 0 <= i < j < |t| + 1 ensures le(([s[0]] + t)[i], ([s[0]] + t)[j]) {
        if i == 0 { assert t[j - 1] in t; }
      }
    } else if s != [] {
      forall i, j | 0 <= i < j < |s| + 1 ensures le(([x] + s)[i], ([x] + s)[j]) {
        if i == 0 && j > 1 { assert le(s[0], s[j - 1]); }
      }
    }
  }

  lemma {:induction false} SortSorts<T(!new)>(s: seq<T>, le: (T, T) -> bool)
    requires TotalPreorder(le)
    ensures Sorted(Sort(s, le), le)
  {
    if s != [] {
      SortSorts(s[1..], le);
      InsertSorts(s[0], Sort(s[1..], le), le);
    }
  }

  lemma {:induction false} SortedStays<T>(s: seq<T>, le: (T, T) -> bool)
    requires Sorted(s, le)
    ensures Sort(s, le) == s
  {
    if s != [] {
      SortedStays(s[1..], le);
      assert |s| > 1 ==> le(s[0], s[1..][0]);
    }
  }

  /** No two different elements of `s` compare equal both ways. */
  ghost predicate Antisymmetric<T>(s: seq<T>, le: (T, T) -> bool) {
    forall x, y :: x in s && y in s && le(x, y) && le(y, x) ==> x == y
  }

  lemma HeadsAgree<T>(a: seq<T>, b: seq<T>, le: (T, T) -> bool)
    requires a != [] && b != []
    requires Sorted(a, le) && Sorted(b, le) && Antisymmetric(a, le)
    requires a[0] in b && b[0] in a
    ensures a[0] == b[0]
  {
    var i :| 0 <= i < |b| && b[i] == a[0];
    var j :| 0 <= j < |a| && a[j] == b[0];
    if i > 0 && j > 0 {
      assert le(b[0], b[i]) && le(a[0], a[j]);
    }
  }

  lemma TailMultiset<T>(a: seq<T>)
    requires a != []
    ensures multiset(a[1..]) == multiset(a) - multiset{a[0]}
  {
    assert a == [a[0]] + a[1..];
  }

  /** An ordered arrangement without ties is unique. */
  lemma {:induction false} SortedUnique<T>(a: seq<T>, b: seq<T>, le: (T, T) -> bool)
    requires Sorted(a, le) && Sorted(b, le)
    requires multiset(a) == multiset(b)
    requires Antisymmetric(a, le)
    ensures a == b
  {
    if a == [] {
      assert |multiset(b)| == 0;
    } else {
      assert a[0] in multiset(b);
      assert b != [];
      assert b[0] in multiset(a);
      HeadsAgree(a, b, le);
      TailMultiset(a);
      TailMultiset(b);
      var a', b' := a[1..], b[1..];
      assert Antisymmetric(a', le) by {
        forall x | x in a' ensures x in a {
        }
      }
      SortedUnique(a', b', le);
      assert a == [a[0]] + a' && b == [b[0]] + b';
    }
  }

  /** The order in which the rows arrive does not show in the sorted list. */
  lemma {:induction false} SortIgnoresOrder<T(!new)>(a: seq<T>, b: seq<T>, le: (T, T) -> bool)
    requires TotalPreorder(le)
    requires multiset(a) == multiset(b)
    requires Antisymmetric(a, le)
    ensures Sort(a, le) == Sort(b, le)
  {
    SortPermutes(a, le);
    SortPermutes(b, le);
    SortSorts(a, le);
    SortSorts(b, le);
    SortKeepsElements(a, le);
    SortedUnique(Sort(a, le), Sort(b, le), le);
  }

  // ----- distinct keys -----

  ghost predicate DistinctBy<T, K>(s: seq<T>, key: T -> K) {
    forall i, j :: 0 <= i < j < |s| ==> key(s[i]) != key(s[j])
  }

  lemma SameKeySamePlace<T, K>(s: seq<T>, key: T -> K, i: nat, j: nat)
    requires DistinctBy(s, key) && i < |s| && j < |s| && key(s[i]) == key(s[j])
    ensures i == j
  {
  }

  lemma RepeatedCountsTwice<T>(s: seq<T>, i: nat, j: nat)
    requires i < j < |s| && s[i] == s[j]
    ensures multiset(s)[s[i]] >= 2
  {
    var a, b := s[..j], s[j..];
    assert s == a + b;
    assert a[i] in a && b[0] in b;
  }

  lemma {:induction false} DistinctCountsOnce<T, K>(s: seq<T>, key: T -> K, x: T)
    requires DistinctBy(s, key)
    ensures multiset(s)[x] <= 1
  {
    if s != [] {
      assert s == [s[0]] + s[1..];
      DistinctCountsOnce(s[1..], key, x);
      assert forall k :: 0 <= k < |s| - 1 ==> key(s[1..][k]) != key(s[0]);
      assert s[0] !in s[1..];
    }
  }

  /** Rearranging a list leaves distinct keys distinct. */
  lemma PermutationKeepsDistinct<T, K>(a: seq<T>, b: seq<T>, key: T -> K)
    requires DistinctBy(a, key) && multiset(a) == multiset(b)
    ensures DistinctBy(b, key)
  {
    forall i, j | 0 <= i < j < |b| ensures key(b[i]) != key(b[j]) {
      assert b[i] in multiset(a) && b[j] in multiset(a);
      var k :| 0 <= k < |a| && a[k] == b[i];
      var l :| 0 <= l < |a| && a[l] == b[j];
      if b[i] == b[j] {
        RepeatedCountsTwice(b, i, j);
        DistinctCountsOnce(a, key, b[i]);
      }
    }
  }

  /** Kept elements have distinct keys if no two of them share one. */
  lemma {:induction false} FilterKeepsDistinct<T(!new), K>(p: T -> bool, s: seq<T>, key: T -> K)
    requires forall i, j :: 0 <= i < j < |s| && p(s[i]) && p(s[j]) ==> key(s[i]) != key(s[j])
    ensures DistinctBy(Filter(p, s), key)
  {
    if s != [] {
      var rest := Filter(p, s[1..]);
      assert forall j :: 0 <= j < |s| - 1 ==> s[1..][j] == s[j + 1];
      FilterKeepsDistinct(p, s[1..], key);
      FilterMembers(p, s[1..]);
      if p(s[0]) {
        forall k | 0 <= k < |rest| ensures key(rest[k]) != key(s[0]) {
          assert rest[k] in rest;
          var j :| 0 <= j < |s| - 1 && s[1..][j] == rest[k];
        }
      }
    }
  }

  lemma Regroup<T>(a: seq<T>, b: seq<T>, c: seq<T>)
    ensures a + b + c == a + (b + c)
  {
  }

  // ----- distinct dates -----

  ghost predicate Ascending(dates: seq<int>) {
    forall i, j :: 0 <= i < j < |dates| ==> dates[i] < dates[j]
  }

  function InsertDate(d: int, dates: seq<int>): seq<int> {
    if dates == [] then [d]
    else if d < dates[0] then [d] + dates
    else if d == dates[0] then dates
    else [dates[0]] + InsertDate(d, dates[1..])
  }

  /** The distinct dates, ascending: `[...new Set(dates)].sort()`. */
  function DistinctDates(dates: seq<int>): seq<int> {
    if dates == [] then [] else InsertDate(dates[0], DistinctDates(dates[1..]))
  }

  lemma {:induction false} InsertDateOrders(d: int, dates: seq<int>)
    requires Ascending(dates)
    ensures Ascending(InsertDate(d, dates))
    ensures forall x :: x in InsertDate(d, dates) <==> x == d || x in dates
  {
    if dates != [] && d > dates[0] {
      var first, tail := dates[0], dates[1..];
      var rest := InsertDate(d, tail);
      InsertDateOrders(d, tail);
      assert dates == [first] + tail;
      forall k | 0 <= k < |rest| ensures first < rest[k] {
        assert rest[k] in rest;
      }
    }
  }

  lemma {:induction false} DistinctDatesOrder(dates: seq<int>)
    ensures Ascending(DistinctDates(dates))
    ensures forall x :: x in DistinctDates(dates) <==> x in dates
  {
    if dates != [] {
      DistinctDatesOrder(dates[1..]);
      InsertDateOrders(dates[0], DistinctDates(dates[1..]));
      assert dates == [dates[0]] + dates[1..];
    }
  }

  lemma {:induction false} AscendingUnique(a: seq<int>, b: seq<int>)
    requires Ascending(a) && Ascending(b)
    requires forall d :: d in a <==> d in b
    ensures a == b
  {
    assert b != [] ==> b[0] in b;
    if a != [] {
      assert a[0] in a && a[0] in b;
      assert b[0] in b && b[0] in a;
      assert a[0] == b[0];
      assert a == [a[0]] + a[1..] && b == [b[0]] + b[1..];
      forall d ensures d in a[1..] <==> d in b[1..] {
        assert d in a[1..] <==> d in a && d != a[0];
        assert d in b[1..] <==> d in b && d != b[0];
      }
      AscendingUnique(a[1..], b[1..]);
    }
  }

  lemma {:induction false} AscendingIsDistinct(dates: seq<int>)
    requires Ascending(dates)
    ensures DistinctDates(dates) == dates
  {
    DistinctDatesOrder(dates);
    AscendingUnique(DistinctDates(dates), dates);
  }

  // ----- mapping and filtering -----

  function Map<A, B>(f: A -> B, s: seq<A>): (r: seq<B>)
    ensures |r| == |s|
    ensures forall i :: 0 <= i < |s| ==> r[i] == f(s[i])
  {
    if s == [] then [] else [f(s[0])] + Map(f, s[1..])
  }

  function Filter<A>(p: A -> bool, s: seq<A>): seq<A> {
    if s == [] then [] else (if p(s[0]) then [s[0]] else []) + Filter(p, s[1..])
  }

  lemma {:induction false} FilterMembers<A(!new)>(p: A -> bool, s: seq<A>)
    ensures forall x :: x in Filter(p, s) <==> x in s && p(x)
  {
    if s != [] {
      FilterMembers(p, s[1..]);
      assert s == [s[0]] + s[1..];
    }
  }

  lemma {:induction false} FilterAll<A(!new)>(p: A -> bool, s: seq<A>)
    requires forall x :: x in s ==> p(x)
    ensures Filter(p, s) == s
  {
    if s != [] {
      assert s[0] in s && forall x :: x in s[1..] ==> x in s;
      FilterAll(p, s[1..]);
    }
  }

  lemma {:induction false} FilterAppend<A>(p: A -> bool, a: seq<A>, b: seq<A>)
    ensures Filter(p, a + b) == Filter(p, a) + Filter(p, b)
  {
    if a == [] {
      assert a + b == b;
    } else {
      var rest := a[1..];
      assert (a + b)[0] == a[0] && (a + b)[1..] == rest + b;
      FilterAppend(p, rest, b);
      var first := if p(a[0]) then [a[0]] else [];
      assert first + (Filter(p, rest) + Filter(p, b)) == (first + Filter(p, rest)) + Filter(p, b);
    }
  }

  lemma {:induction false} MapAppend<A, B>(f: A -> B, a: seq<A>, b: seq<A>)
    ensures Map(f, a + b) == Map(f, a) + Map(f, b)
  {
    forall i | 0 <= i < |a| + |b| ensures Map(f, a + b)[i] == (Map(f, a) + Map(f, b))[i] {
      assert (a + b)[i] == if i < |a| then a[i] else b[i - |a|];
    }
  }

  /** Taking the element at `k` out of a list. */
  lemma WithoutAt<A>(s: seq<A>, k: nat)
    requires k < |s|
    ensures s == s[..k] + [s[k]] + s[k + 1..]
    ensures multiset(s[..k] + s[k + 1..]) == multiset(s) - multiset{s[k]}
  {
    assert s == s[..k] + [s[k]] + s[k + 1..];
  }

  lemma TakeOut<A(!new)>(s: seq<A>, x: A) returns (rest: seq<A>)
    requires x in s
    ensures multiset(rest) == multiset(s) - multiset{x}
    ensures forall y :: y in s && y != x ==> y in rest
  {
    var i :| 0 <= i < |s| && s[i] == x;
    WithoutAt(s, i);
    rest := s[..i] + s[i + 1..];
    forall y | y in s && y != x ensures y in rest {
      assert y in multiset(s);
      assert y in multiset(rest);
    }
  }

  /** Two elements may be brought to the front in either order. */
  lemma TwoInFront<A(!new)>(s: seq<A>, x: A, y: A) returns (rest: seq<A>)
    requires x in s && y in s && x != y
    ensures multiset([x, y] + rest) == multiset(s) && multiset([y, x] + rest) == multiset(s)
  {
    var without := TakeOut(s, x);
    rest := TakeOut(without, y);
    assert x in multiset(s) && y in multiset(without);
    PutInFront(s, rest, x, y);
    PutInFront(s, rest, y, x);
  }

  lemma PutInFront<A>(s: seq<A>, rest: seq<A>, x: A, y: A)
    requires multiset(s) == multiset(rest) + multiset{x} + multiset{y}
    ensures multiset([x, y] + rest) == multiset(s)
  {
    assert multiset([x, y] + rest) == multiset([x, y]) + multiset(rest);
  }

  lemma {:induction false} MapPermutes<A, B>(f: A -> B, a: seq<A>, b: seq<A>)
    requires multiset(a) == multiset(b)
    ensures multiset(Map(f, a)) == multiset(Map(f, b))
  {
    if a == [] {
      assert |multiset(b)| == 0;
    } else {
      assert a[0] in multiset(b);
      var k :| 0 <= k < |b| && b[k] == a[0];
      WithoutAt(b, k);
      TailMultiset(a);
      MapPermutes(f, a[1..], b[..k] + b[k + 1..]);
      MapAppend(f, b[..k], b[k + 1..]);
      MapAppend(f, b[..k] + [b[k]], b[k + 1..]);
      MapAppend(f, b[..k], [b[k]]);
    }
  }

  lemma {:induction false} FilterCounts<A>(p: A -> bool, s: seq<A>, x: A)
    ensures multiset(Filter(p, s))[x] == if p(x) then multiset(s)[x] else 0
  {
    if s != [] {
      FilterCounts(p, s[1..], x);
      assert s == [s[0]] + s[1..];
    }
  }
}
