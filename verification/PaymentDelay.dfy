/** How late a buyer is expected to pay: recency-weighted percentiles of the observed delays, chosen
    from the buyer's own payments, its group's or everyone's. The weight of a payment is any positive
    number; arithmetic is exact. */
module PaymentDelay {
  import opened Options
  import opened Sorting

  /** `delay` is none where the recorded delay is not a finite number. */
  datatype Sample = Sample(buyer: Option<int>, group: Option<int>, paymentDate: int, delay: Option<real>)

  datatype Conservativeness = Typical | Cautious | Severe

  const MIN_DAYS := -15
  const MAX_DAYS := 120

  /** Rounded half up, as `Math.round` does, and held between the bounds. */
  function ClampDelay(delay: real): (days: int)
    ensures -15 <= days <= 120
    ensures -15.0 <= delay <= 120.0 ==> -0.5 < days as real - delay <= 0.5
    ensures delay < -15.0 ==> days == -15
    ensures delay > 120.0 ==> days == 120
  {
    var rounded := (delay + 0.5).Floor;
    var capped := if rounded < MAX_DAYS then rounded else MAX_DAYS;
    if capped > MIN_DAYS then capped else MIN_DAYS
  }

  lemma ClampDelayMonotone(a: real, b: real)
    requires a <= b
    ensures ClampDelay(a) <= ClampDelay(b)
  {
    assert (a + 0.5).Floor <= (b + 0.5).Floor;
  }

  ghost predicate Positive(weight: Sample -> real) {
    forall s :: weight(s) > 0.0
  }

  predicate AllFinite(samples: seq<Sample>) {
    forall i :: 0 <= i < |samples| ==> samples[i].delay.Some?
  }

  // ----- sorting finite samples -----

  function InsertSample(x: Sample, s: seq<Sample>): seq<Sample>
    requires x.delay.Some? && AllFinite(s)
    ensures AllFinite(InsertSample(x, s))
  {
    if s == [] then [x]
    else if x.delay.value <= s[0].delay.value then [x] + s
    else [s[0]] + InsertSample(x, s[1..])
  }

  /** The usable samples, by delay. */
  function Usable(samples: seq<Sample>): (s: seq<Sample>)
    ensures AllFinite(s)
  {
    if samples == [] then []
    else if samples[0].delay.None? then Usable(samples[1..])
    else InsertSample(samples[0], Usable(samples[1..]))
  }

  ghost predicate Ascending(s: seq<Sample>)
    requires AllFinite(s)
  {
    forall i, j :: 0 <= i < j < |s| ==> s[i].delay.value <= s[j].delay.value
  }

  lemma {:induction false} InsertSampleMembers(x: Sample, s: seq<Sample>)
    requires x.delay.Some? && AllFinite(s)
    ensures multiset(InsertSample(x, s)) == multiset{x} + multiset(s)
  {
    if s != [] && x.delay.value > s[0].delay.value {
      InsertSampleMembers(x, s[1..]);
      assert s == [s[0]] + s[1..];
    }
  }

  lemma {:induction false} InsertSampleAscends(x: Sample, s: seq<Sample>)
    requires x.delay.Some? && AllFinite(s) && Ascending(s)
    ensures Ascending(InsertSample(x, s))
  {
    if s != [] && x.delay.value > s[0].delay.value {
      var rest := InsertSample(x, s[1..]);
      InsertSampleAscends(x, s[1..]);
      InsertSampleMembers(x, s[1..]);
      forall k | 0 <= k < |rest| ensures s[0].delay.value <= rest[k].delay.value {
        assert rest[k] in multiset(rest);
        assert rest[k] == x || rest[k] in s[1..];
      }
    }
  }

  lemma {:induction false} UsableAscends(samples: seq<Sample>)
    ensures Ascending(Usable(samples))
  {
    if samples != [] {
      UsableAscends(samples[1..]);
      if samples[0].delay.Some? {
        InsertSampleAscends(samples[0], Usable(samples[1..]));
      }
    }
  }

  // ----- weights -----

  function Total(s: seq<Sample>, weight: Sample -> real): real {
    if s == [] then 0.0 else weight(s[0]) + Total(s[1..], weight)
  }

  /** The weight of the usable samples paid no later than `d` days after the due date. */
  function WeightUpTo(samples: seq<Sample>, d: real, weight: Sample -> real): real {
    if samples == [] then 0.0
    else
      var s := samples[0];
      (if s.delay.Some? && s.delay.value <= d then weight(s) else 0.0) + WeightUpTo(samples[1..], d, weight)
  }

  lemma {:induction false} InsertKeepsWeight(x: Sample, s: seq<Sample>, d: real, weight: Sample -> real)
    requires x.delay.Some? && AllFinite(s)
    ensures WeightUpTo(InsertSample(x, s), d, weight)
         == (if x.delay.value <= d then weight(x) else 0.0) + WeightUpTo(s, d, weight)
    ensures Total(InsertSample(x, s), weight) == weight(x) + Total(s, weight)
  {
    if s != [] && x.delay.value > s[0].delay.value {
      InsertKeepsWeight(x, s[1..], d, weight);
    }
  }

  lemma {:induction false} UsableKeepsWeight(samples: seq<Sample>, d: real, weight: Sample -> real)
    ensures WeightUpTo(Usable(samples), d, weight) == WeightUpTo(samples, d, weight)
  {
    if samples != [] {
      UsableKeepsWeight(samples[1..], d, weight);
      if samples[0].delay.Some? {
        InsertKeepsWeight(samples[0], Usable(samples[1..]), d, weight);
      }
    }
  }

  lemma {:induction false} UsableMembers(samples: seq<Sample>, x: Sample)
    ensures x in Usable(samples) <==> x in samples && x.delay.Some?
  {
    if samples != [] {
      assert samples == [samples[0]] + samples[1..];
      UsableMembers(samples[1..], x);
      if samples[0].delay.Some? {
        var rest := Usable(samples[1..]);
        InsertSampleMembers(samples[0], rest);
        assert x in Usable(samples) <==> x in multiset(Usable(samples));
        assert x in rest <==> x in multiset(rest);
      }
    }
  }

  // ----- the percentile -----

  function Clamp01(p: real): real {
    if p < 0.0 then 0.0 else if p > 1.0 then 1.0 else p
  }

  function Share(part: real, total: real): real {
    part * total
  }

  function Target(samples: seq<Sample>, percentile: real, weight: Sample -> real): real {
    Share(Clamp01(percentile), Total(Usable(samples), weight))
  }

  /** The first delay at which the cumulative weight reaches the target. */
  function FirstReaching(s: seq<Sample>, cumulative: real, target: real, weight: Sample -> real): real
    requires s != [] && AllFinite(s)
  {
    if cumulative + weight(s[0]) >= target || |s| == 1 then s[0].delay.value
    else FirstReaching(s[1..], cumulative + weight(s[0]), target, weight)
  }

  function Percentile(samples: seq<Sample>, percentile: real, weight: Sample -> real): int {
    if Usable(samples) == [] then 0
    else ClampDelay(FirstReaching(Usable(samples), 0.0, Target(samples, percentile, weight), weight))
  }

  method RecencyWeightedPercentile(samples: seq<Sample>, percentile: real, weight: Sample -> real) returns (days: int)
    ensures days == Percentile(samples, percentile, weight)
  {
    var usable := Usable(samples);
    if usable == [] {
      return 0;
    }
    var target := Share(Clamp01(percentile), Total(usable, weight));
    var cumulative := 0.0;
    var k := 0;
    while k < |usable|
      invariant 0 <= k <= |usable|
      invariant k < |usable| ==>
                  FirstReaching(usable[k..], cumulative, target, weight) == FirstReaching(usable, 0.0, target, weight)
      invariant k == |usable| ==> usable[k - 1].delay.value == FirstReaching(usable, 0.0, target, weight)
    {
      assert usable[k..][1..] == usable[k + 1..];
      cumulative := cumulative + weight(usable[k]);
      if cumulative >= target {
        return ClampDelay(usable[k].delay.value);
      }
      k := k + 1;
    }
    return ClampDelay(usable[|usable| - 1].delay.value);
  }

  /** `d` is the least observed delay whose weight, with everything paid sooner, reaches the target. */
  ghost predicate LeastReaching(samples: seq<Sample>, d: real, target: real, weight: Sample -> real) {
    && (exists s :: s in samples && s.delay == Some(d))
    && WeightUpTo(samples, d, weight) >= target
    && (forall s :: s in samples && s.delay.Some? && s.delay.value < d ==>
        WeightUpTo(samples, s.delay.value, weight) < target)
  }

  lemma {:induction false} WeightBounds(s: seq<Sample>, d: real, weight: Sample -> real)
    requires Positive(weight)
    ensures 0.0 <= WeightUpTo(s, d, weight) <= Total(s, weight)
  {
    if s != [] {
      WeightBounds(s[1..], d, weight);
      assert weight(s[0]) > 0.0;
    }
  }

  lemma {:induction false} NoneThatSoon(s: seq<Sample>, d: real, weight: Sample -> real)
    requires forall i :: 0 <= i < |s| && s[i].delay.Some? ==> s[i].delay.value > d
    ensures WeightUpTo(s, d, weight) == 0.0
  {
    if s != [] {
      NoneThatSoon(s[1..], d, weight);
    }
  }

  /** The scan of an ascending list: `before` is the weight of what was passed already. */
  lemma {:induction false} FirstReachingIsLeast(s: seq<Sample>, before: real, target: real, weight: Sample -> real)
    requires s != [] && AllFinite(s) && Ascending(s) && Positive(weight)
    requires before + Total(s, weight) >= target
    ensures var d := FirstReaching(s, before, target, weight);
            && (exists i :: 0 <= i < |s| && s[i].delay.value == d)
            && before + WeightUpTo(s, d, weight) >= target
            && (forall i :: 0 <= i < |s| && s[i].delay.value < d ==>
                  before + WeightUpTo(s, s[i].delay.value, weight) < target)
  {
    var first, rest := s[0], s[1..];
    var d := FirstReaching(s, before, target, weight);
    assert s == [first] + rest;
    if before + weight(first) >= target || |s| == 1 {
      WeightBounds(rest, d, weight);
    } else {
      var more := before + weight(first);
      FirstReachingIsLeast(rest, more, target, weight);
      var k :| 0 <= k < |rest| && rest[k].delay.value == d;
      assert s[k + 1].delay.value == d && first.delay.value <= d;
      forall i | 0 <= i < |s| && s[i].delay.value < d
        ensures before + WeightUpTo(s, s[i].delay.value, weight) < target
      {
        var e := s[i].delay.value;
        assert first.delay.value <= e;
        if i > 0 {
          assert rest[i - 1] == s[i];
        } else {
          SoonestWeight(rest, e, d, more, target, weight);
        }
      }
    }
  }

  /** Up to the delay of the sample just passed, the rest of the list weighs less than the target. */
  lemma {:induction false} SoonestWeight(rest: seq<Sample>, e: real, d: real, more: real, target: real,
                                         weight: Sample -> real)
    requires rest != [] && AllFinite(rest) && Ascending(rest) && e < d && more < target
    requires forall i :: 0 <= i < |rest| ==> e <= rest[i].delay.value
    requires forall i :: 0 <= i < |rest| && rest[i].delay.value < d ==>
               more + WeightUpTo(rest, rest[i].delay.value, weight) < target
    ensures more + WeightUpTo(rest, e, weight) < target
  {
    if rest[0].delay.value > e {
      assert forall i :: 0 < i < |rest| ==> rest[0].delay.value <= rest[i].delay.value;
      NoneThatSoon(rest, e, weight);
    }
  }

  /** The weight of all samples that have a delay. */
  function ObservedWeight(samples: seq<Sample>, weight: Sample -> real): real {
    if samples == [] then 0.0
    else (if samples[0].delay.Some? then weight(samples[0]) else 0.0) + ObservedWeight(samples[1..], weight)
  }

  lemma {:induction false} UsableWeight(samples: seq<Sample>, weight: Sample -> real)
    ensures Total(Usable(samples), weight) == ObservedWeight(samples, weight)
  {
    if samples != [] {
      UsableWeight(samples[1..], weight);
      if samples[0].delay.Some? {
        InsertKeepsWeight(samples[0], Usable(samples[1..]), 0.0, weight);
      }
    }
  }

  lemma {:induction false} NothingUsable(samples: seq<Sample>)
    ensures Usable(samples) == [] <==> forall s :: s in samples ==> s.delay.None?
  {
    if Usable(samples) != [] {
      UsableMembers(samples, Usable(samples)[0]);
    }
    forall s | s in samples && s.delay.Some? ensures Usable(samples) != [] {
      UsableMembers(samples, s);
    }
  }

  /** That share of the whole weight; a share below zero or above one counts as zero or one. */
  predicate IsTarget(target: real, samples: seq<Sample>, share: real, weight: Sample -> real) {
    if share < 0.0 then target == 0.0
    else if share > 1.0 then target == ObservedWeight(samples, weight)
    else target == share * ObservedWeight(samples, weight)
  }

  lemma TargetIs(samples: seq<Sample>, percentile: real, weight: Sample -> real)
    ensures IsTarget(Target(samples, percentile, weight), samples, percentile, weight)
  {
    UsableWeight(samples, weight);
  }

  /** The percentile is the least sample delay whose cumulative weight reaches the target; without samples it is
      zero. */
  lemma PercentileIsLeast(samples: seq<Sample>, percentile: real, weight: Sample -> real)
    requires Positive(weight)
    ensures (forall s :: s in samples ==> s.delay.None?) ==> Percentile(samples, percentile, weight) == 0
    ensures (exists s :: s in samples && s.delay.Some?) ==>
              exists d, target :: IsTarget(target, samples, percentile, weight)
                               && LeastReaching(samples, d, target, weight)
                               && Percentile(samples, percentile, weight) == ClampDelay(d)
  {
    NothingUsable(samples);
    if Usable(samples) != [] {
      TargetReached(samples, percentile, weight);
      TargetIs(samples, percentile, weight);
    }
  }

  lemma {:induction false} TargetReached(samples: seq<Sample>, percentile: real, weight: Sample -> real)
    requires Positive(weight) && Usable(samples) != []
    ensures exists d :: LeastReaching(samples, d, Target(samples, percentile, weight), weight)
                     && Percentile(samples, percentile, weight) == ClampDelay(d)
  {
    var u := Usable(samples);
    var target := Target(samples, percentile, weight);
    var total := Total(u, weight);
    UsableAscends(samples);
    WeightBounds(u, 0.0, weight);
    ShareMonotone(Clamp01(percentile), 1.0, total);
    assert Share(1.0, total) == total;
    FirstReachingIsLeast(u, 0.0, target, weight);
    var d := FirstReaching(u, 0.0, target, weight);
    var i :| 0 <= i < |u| && u[i].delay.value == d;
    assert u[i] in u;
    UsableMembers(samples, u[i]);
    UsableKeepsWeight(samples, d, weight);
    forall s | s in samples && s.delay.Some? && s.delay.value < d ensures WeightUpTo(samples, s.delay.value,
        weight) < target {
      UsableMembers(samples, s);
      var j :| 0 <= j < |u| && u[j] == s;
      UsableKeepsWeight(samples, s.delay.value, weight);
    }
    assert LeastReaching(samples, d, target, weight);
  }

  lemma ShareMonotone(a: real, b: real, total: real)
    requires a <= b && total >= 0.0
    ensures Share(a, total) <= Share(b, total)
  {
  }

  lemma {:induction false} FirstReachingMonotone(s: seq<Sample>, before: real, low: real, high: real,
                                                 weight: Sample -> real)
    requires s != [] && AllFinite(s) && Ascending(s) && low <= high
    ensures FirstReaching(s, before, low, weight) <= FirstReaching(s, before, high, weight)
  {
    if before + weight(s[0]) >= low || |s| == 1 {
      FirstReachingInRange(s, before, high, weight);
    } else {
      FirstReachingMonotone(s[1..], before + weight(s[0]), low, high, weight);
    }
  }

  lemma {:induction false} FirstReachingInRange(s: seq<Sample>, before: real, target: real, weight: Sample -> real)
    requires s != [] && AllFinite(s) && Ascending(s)
    ensures s[0].delay.value <= FirstReaching(s, before, target, weight)
  {
    if !(before + weight(s[0]) >= target || |s| == 1) {
      FirstReachingInRange(s[1..], before + weight(s[0]), target, weight);
      assert s[0].delay.value <= s[1].delay.value;
    }
  }

  /** A higher percentile never expects an earlier payment. */
  lemma PercentileMonotone(samples: seq<Sample>, low: real, high: real, weight: Sample -> real)
    requires Positive(weight) && low <= high
    ensures Percentile(samples, low, weight) <= Percentile(samples, high, weight)
  {
    var u := Usable(samples);
    if u != [] {
      UsableAscends(samples);
      WeightBounds(u, 0.0, weight);
      var total, a, b := Total(u, weight), Clamp01(low), Clamp01(high);
      ShareMonotone(a, b, total);
      FirstReachingMonotone(u, 0.0, Share(a, total), Share(b, total), weight);
      ClampDelayMonotone(FirstReaching(u, 0.0, Share(a, total), weight),
          FirstReaching(u, 0.0, Share(b, total), weight));
    }
  }

  // ----- models -----

  datatype DelayModel = DelayModel(typical: int, cautious: int, severe: int, sampleCount: nat) {
    function At(c: Conservativeness): int {
      match c
      case Typical => typical
      case Cautious => cautious
      case Severe => severe
    }
  }

  function BuildModel(samples: seq<Sample>, weight: Sample -> real): Option<DelayModel> {
    var usable := Usable(samples);
    if usable == [] then None
    else Some(DelayModel(Percentile(usable, 0.5, weight), Percentile(usable, 0.75, weight),
                         Percentile(usable, 0.9, weight), |usable|))
  }

  function BuyerModel(samples: seq<Sample>, buyer: Option<int>, weight: Sample -> real): Option<DelayModel> {
    if buyer.None? then None else BuildModel(Filter((s: Sample) => s.buyer == buyer, samples), weight)
  }

  function GroupModel(samples: seq<Sample>, group: Option<int>, weight: Sample -> real): Option<DelayModel> {
    if group.None? then None else BuildModel(Filter((s: Sample) => s.group == group, samples), weight)
  }

  function GlobalModel(samples: seq<Sample>, weight: Sample -> real): DelayModel {
    var model := BuildModel(samples, weight);
    if model.Some? then model.value else DelayModel(0, 0, 0, 0)
  }

  /** A buyer's own payments if there are enough of them, else its group's, else everyone's. */
  function SelectModel(samples: seq<Sample>, buyer: Option<int>, group: Option<int>, minBuyer: nat, minGroup: nat,
                       weight: Sample -> real): DelayModel {
    var own, shared := BuyerModel(samples, buyer, weight), GroupModel(samples, group, weight);
    if own.Some? && own.value.sampleCount >= minBuyer then own.value
    else if shared.Some? && shared.value.sampleCount >= minGroup then shared.value
    else GlobalModel(samples, weight)
  }

  function PredictedDelay(samples: seq<Sample>, buyer: Option<int>, group: Option<int>, minBuyer: nat, minGroup: nat,
                          weight: Sample -> real, c: Conservativeness): int {
    ClampDelay(SelectModel(samples, buyer, group, minBuyer, minGroup, weight).At(c) as real)
  }

  lemma BuiltModelOrdered(samples: seq<Sample>, weight: Sample -> real)
    requires Positive(weight) && BuildModel(samples, weight).Some?
    ensures var m := BuildModel(samples, weight).value; m.typical <= m.cautious <= m.severe
  {
    PercentileMonotone(Usable(samples), 0.5, 0.75, weight);
    PercentileMonotone(Usable(samples), 0.75, 0.9, weight);
  }

  /** Whatever model is selected, a more conservative setting never predicts a shorter delay. */
  lemma PredictedDelayOrdered(samples: seq<Sample>, buyer: Option<int>, group: Option<int>, minBuyer: nat,
                              minGroup: nat,
                              weight: Sample -> real)
    requires Positive(weight)
    ensures PredictedDelay(samples, buyer, group, minBuyer, minGroup, weight, Typical)
         <= PredictedDelay(samples, buyer, group, minBuyer, minGroup, weight, Cautious)
         <= PredictedDelay(samples, buyer, group, minBuyer, minGroup, weight, Severe)
  {
    if BuyerModel(samples, buyer, weight).Some? {
      BuiltModelOrdered(Filter((s: Sample) => s.buyer == buyer, samples), weight);
    }
    if GroupModel(samples, group, weight).Some? {
      BuiltModelOrdered(Filter((s: Sample) => s.group == group, samples), weight);
    }
    if BuildModel(samples, weight).Some? {
      BuiltModelOrdered(samples, weight);
    }
    var m := SelectModel(samples, buyer, group, minBuyer, minGroup, weight);
    ClampDelayMonotone(m.typical as real, m.cautious as real);
    ClampDelayMonotone(m.cautious as real, m.severe as real);
  }

  // ----- which payments predict, and how -----

  /** How many samples have a delay. */
  function Observed(samples: seq<Sample>): nat {
    if samples == [] then 0 else (if samples[0].delay.Some? then 1 else 0) + Observed(samples[1..])
  }

  lemma {:induction false} InsertFirst(x: Sample, s: seq<Sample>)
    requires x.delay.Some? && AllFinite(s)
    requires s == [] || x.delay.value <= s[0].delay.value
    ensures InsertSample(x, s) == [x] + s
  {
  }

  lemma {:induction false} InsertCounts(x: Sample, s: seq<Sample>)
    requires x.delay.Some? && AllFinite(s)
    ensures |InsertSample(x, s)| == |s| + 1
  {
    if s != [] && x.delay.value > s[0].delay.value {
      InsertCounts(x, s[1..]);
    }
  }

  lemma {:induction false} UsableCounts(samples: seq<Sample>)
    ensures |Usable(samples)| == Observed(samples)
  {
    if samples != [] {
      UsableCounts(samples[1..]);
      if samples[0].delay.Some? {
        InsertCounts(samples[0], Usable(samples[1..]));
      }
    }
  }

  lemma {:induction false} AscendingIsUsable(s: seq<Sample>)
    requires AllFinite(s) && Ascending(s)
    ensures Usable(s) == s
  {
    if s != [] {
      AscendingIsUsable(s[1..]);
      InsertFirst(s[0], s[1..]);
    }
  }

  lemma {:induction false} SelectionDoesNotMatter(samples: seq<Sample>, percentile: real, weight: Sample -> real)
    ensures Percentile(Usable(samples), percentile, weight) == Percentile(samples, percentile, weight)
  {
    UsableAscends(samples);
    AscendingIsUsable(Usable(samples));
  }

  lemma ClampedStays(days: int)
    requires MIN_DAYS <= days <= MAX_DAYS
    ensures ClampDelay(days as real) == days
  {
  }

  /** The median, the third quartile or the ninth decile of the payments. */
  predicate PredictedFrom(days: int, samples: seq<Sample>, weight: Sample -> real, c: Conservativeness) {
    match c
    case Typical => days == Percentile(samples, 0.5, weight)
    case Cautious => days == Percentile(samples, 0.75, weight)
    case Severe => days == Percentile(samples, 0.9, weight)
  }

  lemma {:induction false} ModelPredicts(samples: seq<Sample>, weight: Sample -> real, c: Conservativeness)
    ensures BuildModel(samples, weight).Some? <==> Observed(samples) > 0
    ensures BuildModel(samples, weight).Some? ==>
              BuildModel(samples, weight).value.sampleCount == Observed(samples)
              && PredictedFrom(ClampDelay(BuildModel(samples, weight).value.At(c) as real), samples, weight, c)
    ensures Observed(samples) == 0 ==> PredictedFrom(0, samples, weight, c)
  {
    UsableCounts(samples);
    SelectionDoesNotMatter(samples, 0.5, weight);
    SelectionDoesNotMatter(samples, 0.75, weight);
    SelectionDoesNotMatter(samples, 0.9, weight);
    if BuildModel(samples, weight).Some? {
      ClampedStays(BuildModel(samples, weight).value.At(c));
    }
  }

  /** The delay is a percentile of the buyer's own payments if there are enough, else of its group's, if there
      are enough of those, else of everyone's; zero without any. */
  lemma {:induction false} PredictedDelayIs(samples: seq<Sample>, buyer: Option<int>, group: Option<int>, minBuyer: nat,
                                            minGroup: nat,
                                            weight: Sample -> real, c: Conservativeness)
    requires minBuyer > 0 && minGroup > 0
    ensures var own, shared := Filter((s: Sample) => s.buyer == buyer, samples),
                Filter((s: Sample) => s.group == group, samples);
            var days := PredictedDelay(samples, buyer, group, minBuyer, minGroup, weight, c);
            var enough, groupEnough := buyer.Some? && Observed(own) >= minBuyer,
                group.Some? && Observed(shared) >= minGroup;
            && (enough ==> PredictedFrom(days, own, weight, c))
            && (!enough && groupEnough ==> PredictedFrom(days, shared, weight, c))
            && (!enough && !groupEnough ==> PredictedFrom(days, samples, weight, c))
  {
    ModelPredicts(Filter((s: Sample) => s.buyer == buyer, samples), weight, c);
    ModelPredicts(Filter((s: Sample) => s.group == group, samples), weight, c);
    ModelPredicts(samples, weight, c);
  }
}
