/** The accumulator arithmetic of the statistics classes, over exact reals: a running update
    against the sums it stands for. */
module Moments {

  function Sum(xs: seq<real>): real {
    if xs == [] then 0.0 else xs[0] + Sum(xs[1..])
  }

  function Times(a: real, b: real): real {
    a * b
  }

  function SumOfSquares(xs: seq<real>): real {
    if xs == [] then 0.0 else Times(xs[0], xs[0]) + SumOfSquares(xs[1..])
  }

  /** The sum of squared distances from c. */
  function SquaredDeviations(xs: seq<real>, c: real): real {
    if xs == [] then 0.0 else Times(xs[0] - c, xs[0] - c) + SquaredDeviations(xs[1..], c)
  }

  lemma {:induction false} SumSnoc(xs: seq<real>, x: real)
    ensures Sum(xs + [x]) == Sum(xs) + x
    ensures SumOfSquares(xs + [x]) == SumOfSquares(xs) + x * x
  {
    if xs == [] {
      assert [] + [x] == [x];
    } else {
      assert (xs + [x])[1..] == xs[1..] + [x];
      SumSnoc(xs[1..], x);
    }
  }

  lemma SquareNonnegative(x: real)
    ensures x * x >= 0.0
  {
    if x < 0.0 {
      assert x * x == (-x) * (-x);
    }
  }

  lemma {:induction false} DeviationsNonnegative(xs: seq<real>, c: real)
    ensures SquaredDeviations(xs, c) >= 0.0
  {
    if xs == [] {
    } else {
      SquareNonnegative(xs[0] - c);
      DeviationsNonnegative(xs[1..], c);
    }
  }

  lemma Distribute(a: real, b: real, c: real)
    ensures a * (b + c) == a * b + a * c
  {
  }

  /** The sum of squared distances from c, by way of the plain sums. */
  function Expanded(n: real, sum: real, squares: real, c: real): real {
    squares - 2.0 * c * sum + n * (c * c)
  }

  lemma ExpandStep(x: real, c: real, n: real, sum: real, squares: real)
    ensures Times(x - c, x - c) + Expanded(n, sum, squares, c) == Expanded(n + 1.0, x + sum, Times(x, x) + squares, c)
  {
    assert (x - c) * (x - c) == x * x - 2.0 * c * x + c * c;
    Distribute(2.0 * c, x, sum);
    Distribute(c * c, n, 1.0);
  }

  lemma {:induction false} DeviationsExpand(xs: seq<real>, c: real)
    ensures SquaredDeviations(xs, c) == Expanded(|xs| as real, Sum(xs), SumOfSquares(xs), c)
  {
    if xs == [] {
    } else {
      hide Expanded, Times;
      var rest := xs[1..];
      DeviationsExpand(rest, c);
      ExpandStep(xs[0], c, |rest| as real, Sum(rest), SumOfSquares(rest));
      assert |xs| as real == |rest| as real + 1.0;
    }
  }

  /** The five accumulators of `WeightedSummaryStatistics`. */
  datatype Weighted = Weighted(count: nat, weightSum: real, sum: real, average: real, m2: real)

  const NOTHING := Weighted(0, 0.0, 0.0, 0.0, 0.0)

  /** `sample(value, weight)`; the division needs a nonzero total weight. */
  function Sampled(s: Weighted, value: real, weight: real): Weighted
    requires s.weightSum + weight != 0.0
  {
    var weightSum := s.weightSum + weight;
    var delta := value - s.average;
    var average := s.average + delta * weight / weightSum;
    Weighted(s.count + 1, weightSum, s.sum + value * weight, average,
             s.m2 + delta * weight * (value - average))
  }

  /** The accumulators stand for total weight w, weighted sum wx and weighted squares wxx. */
  ghost predicate Describes(s: Weighted, w: real, wx: real, wxx: real) {
    && s.weightSum == w && s.sum == wx
    && s.average * w == wx
    && s.m2 == wxx - s.average * wx
    && (w == 0.0 ==> s.average == 0.0)
  }

  lemma QuotientTimes(a: real, b: real)
    requires b != 0.0
    ensures a / b * b == a
  {
  }

  /** Multiplying out the update of m2. */
  lemma WelfordAlgebra(a: real, a': real, v: real, w: real, wx: real, total: real)
    requires a * (total - w) == wx && a' * total == wx + v * w
    ensures (v - a) * w * (v - a') - a * wx == v * v * w - a' * (wx + v * w)
  {
    assert a' * (a * total) == a * (wx + v * w);
    assert a * total == wx + a * w;
    assert a' * wx + a' * (a * w) == a * wx + a * (v * w);
    assert (v - a) * w * (v - a') == v * v * w - v * w * a' - a * (v * w) + a' * (a * w);
  }

  /** One update adds the sample to all three sums, with any weight of either sign that does
      not leave a total of zero. */
  lemma SampledDescribes(s: Weighted, value: real, weight: real, w: real, wx: real, wxx: real)
    requires Describes(s, w, wx, wxx) && w + weight != 0.0
    ensures Describes(Sampled(s, value, weight), w + weight, wx + value * weight, wxx + value * value * weight)
  {
    var t := Sampled(s, value, weight);
    var total := w + weight;
    var delta := value - s.average;
    QuotientTimes(delta * weight, total);
    assert t.average * total == s.average * total + delta * weight;
    assert s.average * total == wx + s.average * weight;
    assert delta * weight == value * weight - s.average * weight;
    WelfordAlgebra(s.average, t.average, value, weight, wx, total);
  }

  lemma Cancel(a: real, b: real, c: real)
    requires a * c == b * c && c != 0.0
    ensures a == b
  {
  }

  /** The three sums determine the accumulators: two histories with the same sums end in the
      same statistics, whatever was added and taken away in between. */
  lemma DescribesDetermines(s: Weighted, t: Weighted, w: real, wx: real, wxx: real)
    requires Describes(s, w, wx, wxx) && Describes(t, w, wx, wxx)
    ensures s.(count := 0) == t.(count := 0)
  {
    if w != 0.0 {
      Cancel(s.average, t.average, w);
    }
  }

  lemma SampledCounts(s: Weighted, value: real, weight: real)
    requires s.weightSum + weight != 0.0
    ensures Sampled(s, value, weight).count == s.count + 1
    ensures Sampled(s, value, weight).weightSum == s.weightSum + weight
  {
  }

  lemma DescribesWeight(s: Weighted, w: real, wx: real, wxx: real)
    requires Describes(s, w, wx, wxx)
    ensures s.weightSum == w
  {
  }

  lemma TakeBack(a: real, weight: real)
    ensures a * weight + a * -weight == 0.0
  {
    assert a * weight + a * -weight == a * (weight + -weight);
  }

  /** A sample taken back with the opposite weight leaves no trace but in the counter. */
  lemma SampleTakenBack(s: Weighted, value: real, weight: real, w: real, wx: real, wxx: real)
    requires Describes(s, w, wx, wxx) && w != 0.0 && w + weight != 0.0
    ensures Sampled(Sampled(s, value, weight), value, -weight) == s.(count := s.count + 2)
  {
    hide Sampled, Describes;
    DescribesWeight(s, w, wx, wxx);
    SampledCounts(s, value, weight);
    var t := Sampled(s, value, weight);
    SampledCounts(t, value, -weight);
    SampledDescribes(s, value, weight, w, wx, wxx);
    SampledDescribes(t, value, -weight, w + weight, wx + value * weight, wxx + value * value * weight);
    TakeBack(value, weight);
    TakeBack(value * value, weight);
    DescribesDetermines(Sampled(t, value, -weight), s, w, wx, wxx);
  }

  /** The accumulators hold the batch statistics of xs, each with weight one. */
  ghost predicate Batch(s: Weighted, xs: seq<real>) {
    && s.weightSum == |xs| as real && s.sum == Sum(xs)
    && s.average * |xs| as real == Sum(xs) && (xs == [] ==> s.average == 0.0)
    && s.m2 == SquaredDeviations(xs, s.average)
  }

  lemma MeanAlgebra(a: real, n: real, sum: real)
    requires a * n == sum
    ensures n * (a * a) - 2.0 * a * sum == -(a * sum)
  {
    assert n * (a * a) == a * (a * n);
  }

  lemma BatchIsDescribes(s: Weighted, xs: seq<real>)
    ensures Batch(s, xs) <==> Describes(s, |xs| as real, Sum(xs), SumOfSquares(xs))
  {
    hide Sum, SumOfSquares, SquaredDeviations;
    DeviationsExpand(xs, s.average);
    if s.average * |xs| as real == Sum(xs) {
      MeanAlgebra(s.average, |xs| as real, Sum(xs));
    }
  }

  lemma BatchAdd(s: Weighted, xs: seq<real>, x: real)
    requires Batch(s, xs)
    ensures s.weightSum + 1.0 != 0.0 && Batch(Sampled(s, x, 1.0), xs + [x])
  {
    hide Sampled, Sum, SumOfSquares, SquaredDeviations;
    BatchIsDescribes(s, xs);
    SampledDescribes(s, x, 1.0, |xs| as real, Sum(xs), SumOfSquares(xs));
    SumSnoc(xs, x);
    assert Sum(xs) + x * 1.0 == Sum(xs + [x]);
    assert SumOfSquares(xs) + x * x * 1.0 == SumOfSquares(xs + [x]);
    assert |xs| as real + 1.0 == |xs + [x]| as real;
    BatchIsDescribes(Sampled(s, x, 1.0), xs + [x]);
  }

  lemma SumCons(xs: seq<real>)
    requires xs != []
    ensures Sum(xs[1..]) == Sum(xs) + xs[0] * -1.0
    ensures SumOfSquares(xs[1..]) == SumOfSquares(xs) + xs[0] * xs[0] * -1.0
  {
  }

  /** Taking the oldest sample back with weight -1 gives the batch statistics of the rest; the
      division is by their number, never zero. */
  lemma BatchRemove(s: Weighted, xs: seq<real>)
    requires Batch(s, xs) && |xs| > 1
    ensures s.weightSum + -1.0 != 0.0 && Batch(Sampled(s, xs[0], -1.0), xs[1..])
  {
    hide Sampled, Sum, SumOfSquares, SquaredDeviations;
    BatchIsDescribes(s, xs);
    SampledDescribes(s, xs[0], -1.0, |xs| as real, Sum(xs), SumOfSquares(xs));
    SumCons(xs);
    assert |xs| as real + -1.0 == |xs[1..]| as real;
    BatchIsDescribes(Sampled(s, xs[0], -1.0), xs[1..]);
  }

  // ---- Any weights ----

  datatype Sample = Sample(value: real, weight: real)
  {
    function First(): real {
      value * weight
    }

    function Second(): real {
      value * value * weight
    }

    function Distance(c: real): real {
      weight * ((value - c) * (value - c))
    }
  }

  function TotalWeight(samples: seq<Sample>): real {
    if samples == [] then 0.0
    else var n := |samples| - 1; TotalWeight(samples[..n]) + samples[n].weight
  }

  function WeightedSum(samples: seq<Sample>): real {
    if samples == [] then 0.0
    else var n := |samples| - 1; WeightedSum(samples[..n]) + samples[n].First()
  }

  function WeightedSquares(samples: seq<Sample>): real {
    if samples == [] then 0.0
    else var n := |samples| - 1; WeightedSquares(samples[..n]) + samples[n].Second()
  }

  /** The weighted sum of squared distances from c. */
  function WeightedDeviations(samples: seq<Sample>, c: real): real {
    if samples == [] then 0.0
    else var n := |samples| - 1; WeightedDeviations(samples[..n], c) + samples[n].Distance(c)
  }

  /** No update divides by zero. */
  predicate NoZeroTotal(samples: seq<Sample>) {
    samples != [] ==> TotalWeight(samples) != 0.0 && NoZeroTotal(samples[..|samples| - 1])
  }

  function Accumulated(samples: seq<Sample>): (s: Weighted)
    requires NoZeroTotal(samples)
    ensures s.weightSum == TotalWeight(samples)
  {
    if samples == [] then NOTHING
    else
      var n := |samples| - 1;
      Sampled(Accumulated(samples[..n]), samples[n].value, samples[n].weight)
  }

  lemma WeightedExpandStep(x: Sample, c: real, total: real, sum: real, squares: real)
    ensures Expanded(total, sum, squares, c) + x.Distance(c)
            == Expanded(total + x.weight, sum + x.First(), squares + x.Second(), c)
  {
    var v, w := x.value, x.weight;
    assert (v - c) * (v - c) == v * v - 2.0 * c * v + c * c;
    assert w * (v * v - 2.0 * c * v + c * c) == v * v * w - 2.0 * c * (v * w) + w * (c * c);
    Distribute(2.0 * c, sum, v * w);
    Distribute(c * c, total, w);
  }

  /** SampledDescribes for a sample. */
  lemma SampleDescribes(s: Weighted, x: Sample, w: real, wx: real, wxx: real)
    requires Describes(s, w, wx, wxx) && w + x.weight != 0.0
    ensures Describes(Sampled(s, x.value, x.weight), w + x.weight, wx + x.First(), wxx + x.Second())
  {
    hide Sampled;
    SampledDescribes(s, x.value, x.weight, w, wx, wxx);
  }

  /** The last sample on its own. */
  lemma LastSample(samples: seq<Sample>, c: real)
    requires samples != []
    ensures var front, last := samples[..|samples| - 1], samples[|samples| - 1];
            && TotalWeight(samples) == TotalWeight(front) + last.weight
            && WeightedSum(samples) == WeightedSum(front) + last.First()
            && WeightedSquares(samples) == WeightedSquares(front) + last.Second()
            && WeightedDeviations(samples, c) == WeightedDeviations(front, c) + last.Distance(c)
            && (NoZeroTotal(samples) ==>
                  && TotalWeight(samples) != 0.0 && NoZeroTotal(front)
                  && Accumulated(samples) == Sampled(Accumulated(front), last.value, last.weight))
  {
    hide Sample.First, Sample.Second, Sample.Distance, Sampled;
  }

  lemma {:induction false} WeightedExpand(samples: seq<Sample>, c: real)
    ensures WeightedDeviations(samples, c)
            == Expanded(TotalWeight(samples), WeightedSum(samples), WeightedSquares(samples), c)
  {
    if samples == [] {
      assert 0.0 * (c * c) == 0.0;
    } else {
      hide Expanded, TotalWeight, WeightedSum, WeightedSquares, WeightedDeviations, NoZeroTotal, Accumulated;
      hide Sample.First, Sample.Second, Sample.Distance, Sampled;
      var front, last := samples[..|samples| - 1], samples[|samples| - 1];
      LastSample(samples, c);
      WeightedExpand(front, c);
      WeightedExpandStep(last, c, TotalWeight(front), WeightedSum(front), WeightedSquares(front));
    }
  }

  lemma {:induction false} AccumulatedDescribes(samples: seq<Sample>)
    requires NoZeroTotal(samples)
    ensures Describes(Accumulated(samples), TotalWeight(samples), WeightedSum(samples), WeightedSquares(samples))
  {
    if samples == [] {
    } else {
      hide TotalWeight, WeightedSum, WeightedSquares, WeightedDeviations, NoZeroTotal, Accumulated;
      hide Sample.First, Sample.Second, Sample.Distance, Sampled;
      var front, last := samples[..|samples| - 1], samples[|samples| - 1];
      LastSample(samples, 0.0);
      AccumulatedDescribes(front);
      SampleDescribes(Accumulated(front), last, TotalWeight(front), WeightedSum(front), WeightedSquares(front));
    }
  }

  /** After any weighted samples that never total zero, the accumulators hold the weighted mean
      and the weighted squared deviations from it. */
  lemma AccumulatedIsWeightedStatistics(samples: seq<Sample>)
    requires NoZeroTotal(samples)
    ensures var s := Accumulated(samples);
            && s.sum == WeightedSum(samples)
            && s.average * TotalWeight(samples) == WeightedSum(samples)
            && s.m2 == WeightedDeviations(samples, s.average)
  {
    hide Accumulated, TotalWeight, WeightedSum, WeightedSquares, WeightedDeviations;
    AccumulatedDescribes(samples);
    var s := Accumulated(samples);
    WeightedExpand(samples, s.average);
    MeanAlgebra(s.average, TotalWeight(samples), WeightedSum(samples));
  }
}
