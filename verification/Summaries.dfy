/** `SummaryStatistics` and `RangedSummaryStatistics`. */
module Summaries {
  import opened Moments

  datatype Summary = Summary(count: nat, sum: real, average: real, m2: real)

  const EMPTY := Summary(0, 0.0, 0.0, 0.0)

  /** `sample(t)` */
  function Taken(s: Summary, t: real): Summary {
    var count := s.count + 1;
    var delta := t - s.average;
    var average := s.average + delta / count as real;
    Summary(count, s.sum + t, average, s.m2 + delta * (t - average))
  }

  function Variance(s: Summary): real {
    if s.count >= 2 then s.m2 / s.count as real else 0.0
  }

  /** The accumulators hold the batch statistics of xs. */
  ghost predicate Summarizes(s: Summary, xs: seq<real>) {
    && s.count == |xs| && s.sum == Sum(xs)
    && s.average * |xs| as real == Sum(xs) && (xs == [] ==> s.average == 0.0)
    && s.m2 == SquaredDeviations(xs, s.average)
  }

  /** A plain sample is a weighted sample of weight one. */
  lemma TakenSummarizes(s: Summary, xs: seq<real>, t: real)
    requires Summarizes(s, xs)
    ensures Summarizes(Taken(s, t), xs + [t])
  {
    hide Sum, SumOfSquares, SquaredDeviations, Sampled;
    var w := Weighted(s.count, s.count as real, s.sum, s.average, s.m2);
    BatchAdd(w, xs, t);
    TakenIsSampled(s, t);
  }

  lemma TakenIsSampled(s: Summary, t: real)
    ensures var w, r := Weighted(s.count, s.count as real, s.sum, s.average, s.m2), Taken(s, t);
            Sampled(w, t, 1.0) == Weighted(r.count, r.count as real, r.sum, r.average, r.m2)
  {
    var delta := t - s.average;
    assert s.count as real + 1.0 == (s.count + 1) as real;
    assert delta * 1.0 == delta && t * 1.0 == t;
    var average := s.average + delta / (s.count + 1) as real;
    assert Taken(s, t).average == average;
    assert Sampled(Weighted(s.count, s.count as real, s.sum, s.average, s.m2), t, 1.0).average == average;
    assert delta * 1.0 * (t - average) == delta * (t - average);
  }

  class SummaryStatistics {
    /** Whether this is a `RangedSummaryStatistics`, which also keeps the two extremes. */
    const ranged: bool
    var count: nat
    var sum: real
    var average: real
    var m2: real
    var min: real
    var max: real
    /** The samples since the last reset. */
    ghost var samples: seq<real>

    function State(): Summary
      reads this
    {
      Summary(count, sum, average, m2)
    }

    ghost predicate Valid()
      reads this
    {
      Summarizes(State(), samples) && (ranged && samples != [] ==> IsMin(min, samples) && IsMax(max, samples))
    }

    constructor (ranged: bool)
      ensures Valid() && samples == [] && this.ranged == ranged
    {
      this.ranged := ranged;
      count, sum, average, m2, min, max, samples := 0, 0.0, 0.0, 0.0, 0.0, 0.0, [];
    }

    method Sample(t: real)
      requires Valid()
      modifies this
      ensures Valid() && samples == old(samples) + [t]
    {
      hide Summarizes, IsMin, IsMax;
      TakenSummarizes(State(), samples, t);
      ghost var next := Taken(State(), t);
      count := count + 1;
      sum := sum + t;
      var delta := t - average;
      average := average + delta / count as real;
      assert average == next.average;
      m2 := m2 + delta * (t - average);
      assert State() == next;
      Extremes(samples, min, max, t);
      if ranged {
        if count == 1 {
          min, max := t, t;
        } else if t > max {
          max := t;
        } else if t < min {
          min := t;
        }
      }
      SummarizesCount(next, samples + [t]);
      samples := samples + [t];
    }

    /** Leaves the extremes behind; the next sample overwrites them. */
    method Reset()
      modifies this
      ensures Valid() && samples == []
    {
      count, sum, average, m2 := 0, 0.0, 0.0, 0.0;
      samples := [];
    }
  }

  lemma SummarizesCount(s: Summary, xs: seq<real>)
    requires Summarizes(s, xs)
    ensures s.count == |xs|
  {
  }

  ghost predicate IsMin(m: real, xs: seq<real>) {
    m in xs && forall i :: 0 <= i < |xs| ==> m <= xs[i]
  }

  ghost predicate IsMax(m: real, xs: seq<real>) {
    m in xs && forall i :: 0 <= i < |xs| ==> xs[i] <= m
  }

  lemma Extremes(xs: seq<real>, min: real, max: real, t: real)
    ensures xs == [] ==> IsMin(t, xs + [t]) && IsMax(t, xs + [t])
    ensures xs != [] && IsMin(min, xs) ==> IsMin(if t < min then t else min, xs + [t])
    ensures xs != [] && IsMax(max, xs) ==> IsMax(if t > max then t else max, xs + [t])
    ensures xs != [] && IsMin(min, xs) && IsMax(max, xs) ==> min <= max
  {
  }
}
