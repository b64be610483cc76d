/** `Profile`: deltas collected into bins, and each full bin summed up by eight order
    statistics. */
module Profiles {
  import opened Moments
  import opened Order
  import opened Summaries

  // ---- Deltas ----

  /** The cast of a uint64_t to int64_t. */
  function Int64(x: nat): int
    requires x < 0x1_0000_0000_0000_0000
  {
    if x < 0x8000_0000_0000_0000 then x else x - 0x1_0000_0000_0000_0000
  }

  /** The cast back. */
  function Uint64(x: int): nat {
    x % 0x1_0000_0000_0000_0000
  }

  type Time = t: nat | t < 0x1_0000_0000_0000_0000

  /** `_lastDelta` */
  function Delta(start: Time, time: Time): int {
    if time > start then Int64(time - start) else -Int64(start - time)
  }

  /** What is sampled, an int64_t passed as a uint64_t, is the difference modulo 2^64 on both
      branches: a stop before its start samples a huge value. */
  lemma SampledDelta(start: Time, time: Time)
    ensures Uint64(Delta(start, time)) == (time - start) % 0x1_0000_0000_0000_0000
    ensures start <= time ==> Uint64(Delta(start, time)) == time - start
  {
  }

  /** The signed difference, while it fits; beyond that one that is off by 2^64. */
  lemma DeltaIs(start: Time, time: Time)
    ensures -0x8000_0000_0000_0000 < time - start < 0x8000_0000_0000_0000 ==> Delta(start, time) == time - start
    ensures time - start > 0x8000_0000_0000_0000 ==> Delta(start, time) == time - start - 0x1_0000_0000_0000_0000
    ensures time - start < -0x8000_0000_0000_0000 ==> Delta(start, time) == time - start + 0x1_0000_0000_0000_0000
  {
  }

  // ---- The state and its operations ----

  /** What a profile has seen since its last reset. */
  datatype Run = Run(count: nat, startTime: Time, lastDelta: int,
                     warm: seq<nat>, bins: seq<seq<nat>>, pending: seq<nat>)

  datatype Op = Start(time: Time) | Stop(time: Time) | Restart(time: Time) | SampleFractiles | Reset

  function Close(r: Run): Run {
    if r.pending == [] then r else r.(bins := r.bins + [r.pending], pending := [])
  }

  /** A stop without a start does nothing.  A stop during warmup leaves the start time, so that
      another stop counts again. */
  function Stopped(r: Run, sampleSize: nat, warmupSize: nat, time: Time): Run {
    if r.startTime == 0 then r
    else
      var delta := Delta(r.startTime, time);
      var counted := r.(lastDelta := delta, count := r.count + 1);
      if counted.count <= warmupSize then counted.(warm := r.warm + [Uint64(delta)])
      else
        var sampled := counted.(pending := r.pending + [Uint64(delta)], startTime := 0);
        if |sampled.pending| >= sampleSize then Close(sampled) else sampled
  }

  function Apply(r: Run, sampleSize: nat, warmupSize: nat, op: Op): Run {
    match op
    case Start(time) => r.(startTime := time)
    case Stop(time) => Stopped(r, sampleSize, warmupSize, time)
    case Restart(time) => Stopped(r, sampleSize, warmupSize, time).(startTime := time)
    case SampleFractiles => Close(r)
    case Reset => Run(0, 0, r.lastDelta, [], [], [])
  }

  function ApplyAll(sampleSize: nat, warmupSize: nat, ops: seq<Op>): Run {
    if ops == [] then Run(0, 0, 0, [], [], [])
    else var n := |ops| - 1; Apply(ApplyAll(sampleSize, warmupSize, ops[..n]), sampleSize, warmupSize, ops[n])
  }

  function Binned(bins: seq<seq<nat>>): nat {
    if bins == [] then 0 else Binned(bins[..|bins| - 1]) + |bins[|bins| - 1]|
  }

  /** Every counted stop is in the warmup, in one closed bin, or pending; the warmup fills up
      first; no bin is empty; and fewer than sampleSize samples are pending. */
  ghost predicate Conserves(r: Run, sampleSize: nat, warmupSize: nat) {
    && r.count == |r.warm| + Binned(r.bins) + |r.pending|
    && |r.warm| == (if r.count <= warmupSize then r.count else warmupSize)
    && (forall i :: 0 <= i < |r.bins| ==> r.bins[i] != [])
    && (if sampleSize > 0 then |r.pending| < sampleSize else r.pending == [])
  }

  lemma ApplyConserves(r: Run, sampleSize: nat, warmupSize: nat, op: Op)
    requires Conserves(r, sampleSize, warmupSize)
    ensures Conserves(Apply(r, sampleSize, warmupSize, op), sampleSize, warmupSize)
  {
    match op
    case Start(_) =>
    case Stop(time) => StoppedConserves(r, sampleSize, warmupSize, time);
    case Restart(time) => StoppedConserves(r, sampleSize, warmupSize, time);
    case SampleFractiles => BinnedSnoc(r.bins, r.pending);
    case Reset =>
  }

  lemma StoppedConserves(r: Run, sampleSize: nat, warmupSize: nat, time: Time)
    requires Conserves(r, sampleSize, warmupSize)
    ensures Conserves(Stopped(r, sampleSize, warmupSize, time), sampleSize, warmupSize)
  {
    hide Binned, Delta, Uint64;
    BinnedSnoc(r.bins, r.pending + [Uint64(Delta(r.startTime, time))]);
  }

  lemma BinnedSnoc(bins: seq<seq<nat>>, bin: seq<nat>)
    ensures Binned(bins + [bin]) == Binned(bins) + |bin|
  {
    assert (bins + [bin])[..|bins|] == bins;
  }

  /** Conservation over any run. */
  lemma {:induction false} ProfileConserves(sampleSize: nat, warmupSize: nat, ops: seq<Op>)
    ensures Conserves(ApplyAll(sampleSize, warmupSize, ops), sampleSize, warmupSize)
  {
    if ops == [] {
    } else {
      var n := |ops| - 1;
      ProfileConserves(sampleSize, warmupSize, ops[..n]);
      ApplyConserves(ApplyAll(sampleSize, warmupSize, ops[..n]), sampleSize, warmupSize, ops[n]);
    }
  }

  // ---- Which samples ----

  /** The start time, and the difference modulo 2^64 of each counted stop since the last reset. */
  datatype Stops = Stops(startTime: Time, all: seq<nat>)

  function StopAt(s: Stops, warmupSize: nat, time: Time): Stops {
    if s.startTime == 0 then s
    else
      Stops(if |s.all| < warmupSize then s.startTime else 0,
            s.all + [(time - s.startTime) % 0x1_0000_0000_0000_0000])
  }

  function StopsOf(warmupSize: nat, ops: seq<Op>): Stops {
    if ops == [] then Stops(0, [])
    else
      var n := |ops| - 1;
      var s := StopsOf(warmupSize, ops[..n]);
      match ops[n]
      case Start(time) => s.(startTime := time)
      case Stop(time) => StopAt(s, warmupSize, time)
      case Restart(time) => StopAt(s, warmupSize, time).(startTime := time)
      case SampleFractiles => s
      case Reset => Stops(0, [])
  }

  function Joined(bins: seq<seq<nat>>): seq<nat> {
    if bins == [] then [] else Joined(bins[..|bins| - 1]) + bins[|bins| - 1]
  }

  lemma JoinedSnoc(bins: seq<seq<nat>>, bin: seq<nat>)
    ensures Joined(bins + [bin]) == Joined(bins) + bin
  {
    assert (bins + [bin])[..|bins|] == bins;
  }

  /** The first differences up to the warmup size are the warmup; the others are, in order, in the
      closed bins and then pending. */
  ghost predicate Holds(r: Run, s: Stops, warmupSize: nat) {
    && r.startTime == s.startTime && r.count == |s.all|
    && |r.warm| <= warmupSize && (|s.all| > |r.warm| ==> |r.warm| == warmupSize)
    && s.all == r.warm + (Joined(r.bins) + r.pending)
    && (s.all != [] ==> s.all[|s.all| - 1] == Uint64(r.lastDelta))
  }

  lemma StoppedHolds(r: Run, s: Stops, sampleSize: nat, warmupSize: nat, time: Time)
    requires Holds(r, s, warmupSize)
    ensures Holds(Stopped(r, sampleSize, warmupSize, time), StopAt(s, warmupSize, time), warmupSize)
  {
    hide Delta, Uint64, Joined;
    SampledDelta(r.startTime, time);
    JoinedSnoc(r.bins, r.pending + [Uint64(Delta(r.startTime, time))]);
    if r.startTime != 0 && |s.all| < warmupSize {
      assert Joined(r.bins) + r.pending == [];
    }
  }

  /** Over any run the samples held are exactly the differences of the counted stops since the
      last reset, each in its place. */
  lemma {:induction false} ProfileHolds(sampleSize: nat, warmupSize: nat, ops: seq<Op>)
    ensures Holds(ApplyAll(sampleSize, warmupSize, ops), StopsOf(warmupSize, ops), warmupSize)
  {
    if ops == [] {
    } else {
      hide Holds, Stopped, StopAt;
      var n := |ops| - 1;
      ProfileHolds(sampleSize, warmupSize, ops[..n]);
      ApplyHolds(ApplyAll(sampleSize, warmupSize, ops[..n]), StopsOf(warmupSize, ops[..n]),
                 sampleSize, warmupSize, ops[n]);
    }
  }

  lemma ApplyHolds(r: Run, s: Stops, sampleSize: nat, warmupSize: nat, op: Op)
    requires Holds(r, s, warmupSize)
    ensures Holds(Apply(r, sampleSize, warmupSize, op),
                  match op
                  case Start(time) => s.(startTime := time)
                  case Stop(time) => StopAt(s, warmupSize, time)
                  case Restart(time) => StopAt(s, warmupSize, time).(startTime := time)
                  case SampleFractiles => s
                  case Reset => Stops(0, []),
                  warmupSize)
  {
    hide Stopped, StopAt, Joined, Uint64;
    match op
    case Start(_) =>
    case Stop(time) => StoppedHolds(r, s, sampleSize, warmupSize, time);
    case Restart(time) => StoppedHolds(r, s, sampleSize, warmupSize, time);
    case SampleFractiles => JoinedSnoc(r.bins, r.pending);
    case Reset => NothingJoined();
  }

  lemma NothingJoined()
    ensures Joined([]) == []
  {
  }

  /** A bin that is not closed from outside is closed by its last sample: with the size it is set
      to, or one for size 0. */
  lemma {:induction false} BinsFull(sampleSize: nat, warmupSize: nat, ops: seq<Op>)
    requires SampleFractiles !in ops
    ensures forall bin :: bin in ApplyAll(sampleSize, warmupSize, ops).bins ==>
              |bin| == if sampleSize > 0 then sampleSize else 1
  {
    if ops == [] {
    } else {
      hide Delta, Uint64, Conserves;
      var n := |ops| - 1;
      BinsFull(sampleSize, warmupSize, ops[..n]);
      ProfileConserves(sampleSize, warmupSize, ops[..n]);
      PendingFew(ApplyAll(sampleSize, warmupSize, ops[..n]), sampleSize, warmupSize);
      assert ops[n] in ops;
    }
  }

  lemma PendingFew(r: Run, sampleSize: nat, warmupSize: nat)
    requires Conserves(r, sampleSize, warmupSize)
    ensures if sampleSize > 0 then |r.pending| < sampleSize else r.pending == []
  {
  }

  // ---- The eight summaries ----

  const FRACTILES: seq<real> := [0.25, 0.50, 0.75, 0.90, 0.95, 0.99]

  /** What a closed bin adds to summary k: its least sample, its six fractiles in order, its
      greatest sample. */
  function BinValue(bin: seq<nat>, k: nat): nat
    requires bin != [] && k < 8
  {
    if k == 0 then Least(bin)
    else if k == 7 then Greatest(bin)
    else Fractile(bin, FRACTILES[k - 1])
  }

  lemma BinValuesOrdered(bin: seq<nat>, j: nat, k: nat)
    requires bin != [] && j <= k < 8
    ensures BinValue(bin, j) <= BinValue(bin, k)
  {
    hide Sort, Rank;
    SortSorts(bin);
    if 0 < j && k < 7 {
      FractileMonotone(bin, FRACTILES[j - 1], FRACTILES[k - 1]);
    } else if 0 < k < 7 {
      RankInBounds(|bin|, FRACTILES[k - 1]);
    } else if 0 < j < 7 {
      RankInBounds(|bin|, FRACTILES[j - 1]);
    }
  }

  lemma Hundredths(f: real, point: real, n: real)
    requires 100.0 * f == point
    ensures 100.0 * (f * n) == point * n
  {
    assert 100.0 * (f * n) == (100.0 * f) * n;
  }

  /** The summaries in between sample the quarter, the half, three quarters, 90, 95 and 99 per
      cent points of each bin. */
  lemma BinFractiles(bin: seq<nat>)
    requires bin != []
    ensures BinValue(bin, 0) == Least(bin) && BinValue(bin, 7) == Greatest(bin)
    ensures var n, points := |bin| as real, [25.0, 50.0, 75.0, 90.0, 95.0, 99.0];
            forall k :: 0 <= k < 6 ==>
              var v := BinValue(bin, k + 1);
              v in bin && 100.0 * Below(bin, v) as real <= points[k] * n < 100.0 * AtMost(bin, v) as real
  {
    var n, points := |bin| as real, [25.0, 50.0, 75.0, 90.0, 95.0, 99.0];
    hide Fractile, Least, Greatest, Below, AtMost;
    forall k | 0 <= k < 6
      ensures var v := BinValue(bin, k + 1);
              v in bin && 100.0 * Below(bin, v) as real <= points[k] * n < 100.0 * AtMost(bin, v) as real
    {
      FractileSplits(bin, FRACTILES[k]);
      Hundredths(FRACTILES[k], points[k], n);
    }
  }

  /** The samples of summary k. */
  function BinValues(bins: seq<seq<nat>>, k: nat): (r: seq<real>)
    requires k < 8 && forall i :: 0 <= i < |bins| ==> bins[i] != []
    ensures |r| == |bins|
  {
    if bins == [] then []
    else var n := |bins| - 1; BinValues(bins[..n], k) + [BinValue(bins[n], k) as real]
  }

  lemma {:induction false} BinValuesAt(bins: seq<seq<nat>>, k: nat, i: nat)
    requires k < 8 && i < |bins| && forall i :: 0 <= i < |bins| ==> bins[i] != []
    ensures BinValues(bins, k)[i] == BinValue(bins[i], k) as real
  {
    hide BinValue;
    var n := |bins| - 1;
    if i < n {
      BinValuesAt(bins[..n], k, i);
    }
  }

  lemma {:induction false} SumsOrdered(bins: seq<seq<nat>>, j: nat, k: nat)
    requires j <= k < 8 && forall i :: 0 <= i < |bins| ==> bins[i] != []
    ensures Sum(BinValues(bins, j)) <= Sum(BinValues(bins, k))
  {
    if bins == [] {
    } else {
      hide BinValue, Sum;
      var n := |bins| - 1;
      SumsOrdered(bins[..n], j, k);
      BinValuesOrdered(bins[n], j, k);
      SumSnoc(BinValues(bins[..n], j), BinValue(bins[n], j) as real);
      SumSnoc(BinValues(bins[..n], k), BinValue(bins[n], k) as real);
    }
  }

  lemma AverageOrdered(a: real, b: real, n: real)
    requires n > 0.0 && a * n <= b * n
    ensures a <= b
  {
    assert a * n - b * n == (a - b) * n;
  }

  /** Once a bin is closed, the averages of the eight summaries are in the order minimum,
      fractiles, maximum. */
  lemma AveragesOrdered(s: Summary, t: Summary, bins: seq<seq<nat>>, j: nat, k: nat)
    requires j <= k < 8 && bins != [] && forall i :: 0 <= i < |bins| ==> bins[i] != []
    requires Summarizes(s, BinValues(bins, j)) && Summarizes(t, BinValues(bins, k))
    ensures s.count == t.count == |bins| && s.average <= t.average
  {
    hide BinValues, SquaredDeviations, Sum;
    SumsOrdered(bins, j, k);
    AverageOrdered(s.average, t.average, |bins| as real);
  }

  /** The minimum of the minima and the maximum of the maxima are the extremes of all binned
      samples, and both are binned samples. */
  lemma ExtremesOfAll(bins: seq<seq<nat>>, min: real, max: real)
    requires bins != [] && forall i :: 0 <= i < |bins| ==> bins[i] != []
    requires IsMin(min, BinValues(bins, 0)) && IsMax(max, BinValues(bins, 7))
    ensures forall i, x :: 0 <= i < |bins| && x in bins[i] ==> min <= x as real <= max
    ensures exists i, x :: 0 <= i < |bins| && x in bins[i] && x as real == min
    ensures exists i, x :: 0 <= i < |bins| && x in bins[i] && x as real == max
  {
    hide BinValues, Sort;
    forall i | 0 <= i < |bins|
      ensures Least(bins[i]) in bins[i] && Greatest(bins[i]) in bins[i]
      ensures forall x :: x in bins[i] ==> min <= x as real <= max
    {
      BinValuesAt(bins, 0, i);
      BinValuesAt(bins, 7, i);
      LeastAndGreatest(bins[i]);
    }
    var i :| 0 <= i < |bins| && BinValues(bins, 0)[i] == min;
    BinValuesAt(bins, 0, i);
    assert Least(bins[i]) in bins[i] && Least(bins[i]) as real == min;
    var j :| 0 <= j < |bins| && BinValues(bins, 7)[j] == max;
    BinValuesAt(bins, 7, j);
    assert Greatest(bins[j]) in bins[j] && Greatest(bins[j]) as real == max;
  }

  // ---- The object ----

  class Profile {
    const sampleSize: nat
    const warmupSize: nat
    var count: nat
    var startTime: Time
    var lastDelta: int
    const orderStatistics: OrderStatistics
    const warmupStatistics: SummaryStatistics
    /** The eight summaries, in the order minimum, fractiles, maximum. */
    const statistics: seq<SummaryStatistics>
    ghost var warm: seq<nat>
    ghost var bins: seq<seq<nat>>

    ghost function State(): Run
      reads this, orderStatistics
    {
      Run(count, startTime, lastDelta, warm, bins, orderStatistics.taken)
    }

    ghost predicate Summed(k: nat, closed: seq<seq<nat>>)
      requires k < 8 == |statistics| && forall i :: 0 <= i < |closed| ==> closed[i] != []
      reads statistics[k]
    {
      statistics[k].ranged && statistics[k].Valid() && statistics[k].samples == BinValues(closed, k)
    }

    ghost predicate Apart() {
      && |statistics| == 8
      && (forall j, k :: 0 <= j < k < 8 ==> statistics[j] != statistics[k])
      && (forall k :: 0 <= k < 8 ==> statistics[k] != warmupStatistics)
    }

    /** The accumulators hold what the run so far gave them. */
    ghost predicate Tied()
      reads this, orderStatistics, warmupStatistics, statistics
    {
      && Apart()
      && (forall i :: 0 <= i < |bins| ==> bins[i] != [])
      && orderStatistics.Valid()
      && warmupStatistics.ranged && warmupStatistics.Valid() && warmupStatistics.samples == AsReals(warm)
      && (forall k :: 0 <= k < 8 ==> Summed(k, bins))
    }

    ghost predicate Valid()
      reads this, orderStatistics, warmupStatistics, statistics
    {
      Tied() && Conserves(State(), sampleSize, warmupSize)
    }

    /** Once a bin is closed, the averages of the eight summaries are in the order minimum,
        fractiles, maximum, each over one value per bin. */
    lemma SummariesOrdered(j: nat, k: nat)
      requires Valid() && bins != [] && j <= k < 8
      ensures statistics[j].count == statistics[k].count == |bins|
      ensures statistics[j].average <= statistics[k].average
    {
      hide Summarizes, Conserves;
      assert Summed(j, bins) && Summed(k, bins);
      AveragesOrdered(statistics[j].State(), statistics[k].State(), bins, j, k);
    }

    /** The minimum of the minima and the maximum of the maxima are the extremes of all samples
        in closed bins. */
    lemma SummariesExtreme()
      requires Valid() && bins != []
      ensures var min, max := statistics[0].min, statistics[7].max;
              && (forall i, x :: 0 <= i < |bins| && x in bins[i] ==> min <= x as real <= max)
              && (exists i, x :: 0 <= i < |bins| && x in bins[i] && x as real == min)
              && (exists i, x :: 0 <= i < |bins| && x in bins[i] && x as real == max)
    {
      hide Summarizes, Conserves, BinValues, IsMin, IsMax;
      assert Summed(0, bins) && Summed(7, bins);
      ExtremesOfAll(bins, statistics[0].min, statistics[7].max);
    }

    constructor (sampleSize: nat, warmupSize: nat)
      ensures Valid() && State() == Run(0, 0, 0, [], [], [])
      ensures this.sampleSize == sampleSize && this.warmupSize == warmupSize
      ensures fresh(orderStatistics) && fresh(warmupStatistics) && forall s :: s in statistics ==> fresh(s)
    {
      this.sampleSize, this.warmupSize := sampleSize, warmupSize;
      count, startTime, lastDelta, warm, bins := 0, 0, 0, [], [];
      orderStatistics := new OrderStatistics();
      warmupStatistics := new SummaryStatistics(true);
      var eight := EmptyStatistics();
      statistics := eight;
      new;
      assert Tied();
    }

    static method EmptyStatistics() returns (eight: seq<SummaryStatistics>)
      ensures |eight| == 8 && forall j, k :: 0 <= j < k < 8 ==> eight[j] != eight[k]
      ensures forall k :: 0 <= k < 8 ==>
                fresh(eight[k]) && eight[k].ranged && eight[k].Valid() && eight[k].samples == []
    {
      var min := new SummaryStatistics(true);
      var f25 := new SummaryStatistics(true);
      var f50 := new SummaryStatistics(true);
      var f75 := new SummaryStatistics(true);
      var f90 := new SummaryStatistics(true);
      var f95 := new SummaryStatistics(true);
      var f99 := new SummaryStatistics(true);
      var max := new SummaryStatistics(true);
      hide SummaryStatistics.Valid;
      eight := [min, f25, f50, f75, f90, f95, f99, max];
    }

    method Start(time: Time)
      requires Valid()
      modifies this`startTime
      ensures Valid() && State() == Apply(old(State()), sampleSize, warmupSize, Op.Start(time))
    {
      hide Summed;
      startTime := time;
    }

    method Stop(time: Time) returns (delta: int)
      requires Valid()
      modifies this, orderStatistics, warmupStatistics, statistics
      ensures Valid() && State() == Apply(old(State()), sampleSize, warmupSize, Op.Stop(time))
      ensures delta == if old(startTime) == 0 then 0 else lastDelta
    {
      hide Conserves, Delta, Summed, Summarizes, Uint64;
      StoppedConserves(State(), sampleSize, warmupSize, time);
      if startTime == 0 {
        return 0;
      }
      lastDelta := Delta(startTime, time);
      count := count + 1;
      if count <= warmupSize {
        warmupStatistics.Sample(Uint64(lastDelta) as real);
        warm := warm + [Uint64(lastDelta)];
        return lastDelta;
      }
      orderStatistics.Sample(Uint64(lastDelta));
      startTime := 0;
      if |orderStatistics.samples| >= sampleSize {
        CloseBin();
      }
      return lastDelta;
    }

    /** Summaries below n summarize the bins done, the others the bins before. */
    ghost predicate Upto(n: nat, done: seq<seq<nat>>, before: seq<seq<nat>>)
      requires n <= 8 && Apart()
      requires forall i :: 0 <= i < |done| ==> done[i] != []
      requires forall i :: 0 <= i < |before| ==> before[i] != []
      reads statistics
    {
      && (forall k :: 0 <= k < n ==> Summed(k, done))
      && (forall k :: n <= k < 8 ==> Summed(k, before))
    }

    /** Samples one order statistic of the closing bin into its summary. */
    method SampleInto(n: nat, v: nat, ghost closed: seq<seq<nat>>, ghost bin: seq<nat>)
      requires Apart() && n < 8 && bin != [] && forall i :: 0 <= i < |closed| ==> closed[i] != []
      requires Upto(n, closed + [bin], closed) && v == BinValue(bin, n)
      modifies statistics[n]
      ensures Upto(n + 1, closed + [bin], closed)
    {
      hide BinValue, Summarizes;
      assert (closed + [bin])[..|closed|] == closed;
      assert Summed(n, closed);
      statistics[n].Sample(v as real);
      assert Summed(n, closed + [bin]);
      hide Summed;
    }

    method ResetOne(n: nat, ghost closed: seq<seq<nat>>)
      requires Apart() && n < 8 && forall i :: 0 <= i < |closed| ==> closed[i] != []
      requires Upto(n, [], closed)
      modifies statistics[n]
      ensures Upto(n + 1, [], closed)
    {
      hide Summarizes;
      assert Summed(n, closed);
      statistics[n].Reset();
      assert Summed(n, []);
      hide Summed;
    }

    /** `sampleFractiles` */
    method CloseBin()
      requires Tied()
      modifies this`bins, orderStatistics, statistics
      ensures Tied() && State() == Close(old(State()))
    {
      hide Summed, Summarizes, Fractile, Least, Greatest;
      if |orderStatistics.samples| == 0 {
        return;
      }
      ghost var closed, bin := bins, orderStatistics.taken;
      assert Upto(0, closed + [bin], closed);
      SampleBin(closed, bin);
      orderStatistics.Reset();
      bins := closed + [bin];
    }

    /** One of the eight samples of a closing bin: the order statistic and its summary. */
    method SampleStatistic(n: nat, ghost closed: seq<seq<nat>>, ghost bin: seq<nat>)
      requires Apart() && n < 8 && forall i :: 0 <= i < |closed| ==> closed[i] != []
      requires orderStatistics.Valid() && bin == orderStatistics.taken && bin != []
      requires Upto(n, closed + [bin], closed)
      modifies orderStatistics`samples, orderStatistics`dirty, statistics[n]
      ensures orderStatistics.Valid() && Upto(n + 1, closed + [bin], closed)
    {
      hide Upto, Fractile, Least, Greatest, OrderStatistics.Valid;
      var v;
      if n == 0 {
        v := orderStatistics.Min();
      } else if n == 7 {
        v := orderStatistics.Max();
      } else {
        v := orderStatistics.FractileAt(FRACTILES[n - 1]);
      }
      assert v == BinValue(bin, n);
      SampleInto(n, v, closed, bin);
    }

    /** The eight samples of a closing bin. */
    method SampleBin(ghost closed: seq<seq<nat>>, ghost bin: seq<nat>)
      requires Apart() && forall i :: 0 <= i < |closed| ==> closed[i] != []
      requires orderStatistics.Valid() && bin == orderStatistics.taken && bin != []
      requires Upto(0, closed + [bin], closed)
      modifies orderStatistics`samples, orderStatistics`dirty, statistics
      ensures orderStatistics.Valid() && Upto(8, closed + [bin], closed)
    {
      hide Upto, Fractile, Least, Greatest, OrderStatistics.Valid;
      SampleStatistic(0, closed, bin);
      SampleStatistic(1, closed, bin);
      SampleStatistic(2, closed, bin);
      SampleStatistic(3, closed, bin);
      SampleStatistic(4, closed, bin);
      SampleStatistic(5, closed, bin);
      SampleStatistic(6, closed, bin);
      SampleStatistic(7, closed, bin);
    }

    method SampleFractiles()
      requires Valid()
      modifies this`bins, orderStatistics, statistics
      ensures Valid() && State() == Apply(old(State()), sampleSize, warmupSize, Op.SampleFractiles)
    {
      hide Tied, Conserves;
      ApplyConserves(State(), sampleSize, warmupSize, Op.SampleFractiles);
      CloseBin();
    }

    method Restart(time: Time) returns (delta: int)
      requires Valid()
      modifies this, orderStatistics, warmupStatistics, statistics
      ensures Valid() && State() == Apply(old(State()), sampleSize, warmupSize, Op.Restart(time))
      ensures delta == if old(startTime) == 0 then 0 else lastDelta
    {
      delta := Stop(time);
      Start(time);
    }

    method Reset()
      requires Valid()
      modifies this, orderStatistics, warmupStatistics, statistics
      ensures Valid() && State() == Apply(old(State()), sampleSize, warmupSize, Op.Reset)
    {
      hide Summarizes, Summed;
      ghost var closed := bins;
      assert Upto(0, [], closed);
      ResetStatistics(closed);
      count, startTime := 0, 0;
      orderStatistics.Reset();
      warmupStatistics.Reset();
      warm, bins := [], [];
    }

    method ResetStatistics(ghost closed: seq<seq<nat>>)
      requires Apart() && forall i :: 0 <= i < |closed| ==> closed[i] != []
      requires Upto(0, [], closed)
      modifies statistics
      ensures Upto(8, [], closed)
    {
      hide Upto;
      ResetOne(0, closed);
      ResetOne(1, closed);
      ResetOne(2, closed);
      ResetOne(3, closed);
      ResetOne(4, closed);
      ResetOne(5, closed);
      ResetOne(6, closed);
      ResetOne(7, closed);
    }
  }

  function AsReals(s: seq<nat>): (r: seq<real>)
    ensures |r| == |s| && forall i :: 0 <= i < |s| ==> r[i] == s[i] as real
  {
    seq(|s|, i requires 0 <= i < |s| => s[i] as real)
  }
}
