/** Amounts rounded to two decimals. Numbers are exact, so the `Number.EPSILON` that the source adds
    against binary representation error has nothing to correct here. */
module Money {

  /** `Math.round(amount * 100) / 100`. */
  function Round2(x: real): real {
    (100.0 * x + 0.5).Floor as real / 100.0
  }

  /** A whole number of cents. */
  predicate IsCents(x: real) {
    (100.0 * x).Floor as real == 100.0 * x
  }

  function Abs(x: real): real {
    if x < 0.0 then -x else x
  }

  function Min(a: real, b: real): real {
    if a < b then a else b
  }

  function Max(a: real, b: real): real {
    if a < b then b else a
  }

  lemma Round2Near(x: real)
    ensures Abs(Round2(x) - x) <= 0.005
  {
    var n := (100.0 * x + 0.5).Floor as real;
    assert n <= 100.0 * x + 0.5 < n + 1.0;
  }

  lemma Round2Monotone(x: real, y: real)
    requires x <= y
    ensures Round2(x) <= Round2(y)
  {
    assert (100.0 * x + 0.5).Floor <= (100.0 * y + 0.5).Floor;
  }

  lemma Round2Exact(x: real)
    requires IsCents(x)
    ensures Round2(x) == x
  {
    var n := (100.0 * x).Floor;
    assert (n as real + 0.5).Floor == n;
  }

  lemma Round2IsCents(x: real)
    ensures IsCents(Round2(x))
  {
    CentsOf(Round2(x), (100.0 * x + 0.5).Floor);
  }

  lemma CentsOf(x: real, n: int)
    requires 100.0 * x == n as real
    ensures IsCents(x)
  {
    assert (n as real).Floor == n;
  }

  lemma CentsAdd(x: real, y: real)
    requires IsCents(x) && IsCents(y)
    ensures IsCents(x + y) && IsCents(x - y)
  {
    CentsOf(x + y, (100.0 * x).Floor + (100.0 * y).Floor);
    CentsOf(x - y, (100.0 * x).Floor - (100.0 * y).Floor);
  }

  // ----- running balances -----

  /** A balance lowered amount by amount and rounded each time. */
  function Running(opening: real, amounts: seq<real>): real {
    if amounts == [] then Round2(opening)
    else Round2(Running(opening, amounts[..|amounts| - 1]) - amounts[|amounts| - 1])
  }

  function Sum(amounts: seq<real>): real {
    if amounts == [] then 0.0 else Sum(amounts[..|amounts| - 1]) + amounts[|amounts| - 1]
  }

  ghost predicate AllCents(amounts: seq<real>) {
    forall i :: 0 <= i < |amounts| ==> IsCents(amounts[i])
  }

  /** The rounding error a running balance can gather: none if every amount is in whole cents. */
  ghost function Drift(opening: real, amounts: seq<real>): real {
    if IsCents(opening) && AllCents(amounts) then 0.0 else 0.005 * (|amounts| + 1) as real
  }

  lemma {:induction false} RunningDrift(opening: real, amounts: seq<real>)
    ensures Abs(Running(opening, amounts) - (opening - Sum(amounts))) <= 0.005 * (|amounts| + 1) as real
  {
    if amounts == [] {
      Round2Near(opening);
    } else {
      var n := |amounts| - 1;
      RunningDrift(opening, amounts[..n]);
      Round2Near(Running(opening, amounts[..n]) - amounts[n]);
      assert 0.005 * (|amounts| + 1) as real == 0.005 * |amounts| as real + 0.005;
    }
  }

  lemma {:induction false} RunningExact(opening: real, amounts: seq<real>)
    requires IsCents(opening) && AllCents(amounts)
    ensures Running(opening, amounts) == opening - Sum(amounts) && IsCents(opening - Sum(amounts))
  {
    if amounts == [] {
      Round2Exact(opening);
    } else {
      var n := |amounts| - 1;
      RunningExact(opening, amounts[..n]);
      CentsAdd(opening - Sum(amounts[..n]), amounts[n]);
      Round2Exact(Running(opening, amounts[..n]) - amounts[n]);
    }
  }

  /** A running balance is the opening less everything taken off, up to the drift. */
  lemma {:induction false} RunningBalance(opening: real, amounts: seq<real>)
    ensures Abs(Running(opening, amounts) - (opening - Sum(amounts))) <= Drift(opening, amounts)
  {
    RunningDrift(opening, amounts);
    if IsCents(opening) && AllCents(amounts) {
      RunningExact(opening, amounts);
    }
  }
}
