/** The sliding windows: the ring buffer of `BaseSlidingWindow` with the hooks of the three
    classes built on it.  The C++ template parameter that picks the hooks is a constant tag
    here. */
module Windows {
  import opened Moments
  import opened Rings

  class WeightedSummaryStatistics {
    var count: nat
    var weightSum: real
    var sum: real
    var average: real
    var m2: real

    function State(): Weighted
      reads this
    {
      Weighted(count, weightSum, sum, average, m2)
    }

    constructor ()
      ensures State() == NOTHING
    {
      count, weightSum, sum, average, m2 := 0, 0.0, 0.0, 0.0, 0.0;
    }

    method Sample(value: real, weight: real)
      requires weightSum + weight != 0.0
      modifies this
      ensures State() == Sampled(old(State()), value, weight)
    {
      ghost var next := Sampled(State(), value, weight);
      count := count + 1;
      weightSum := weightSum + weight;
      sum := sum + value * weight;
      var delta := value - average;
      average := average + delta * weight / weightSum;
      assert average == next.average;
      m2 := m2 + delta * weight * (value - average);
      assert m2 == next.m2;
    }

    method Reset()
      modifies this
      ensures State() == NOTHING
    {
      count, weightSum, sum, average, m2 := 0, 0.0, 0.0, 0.0, 0.0;
    }
  }

  datatype Hooks = NoHooks | SumHooks | StatisticsHooks

  /** What a window holds, oldest first. */
  datatype Content = Content(indexes: seq<nat>, values: seq<real>)
  {
    function Drop(k: nat): Content
      requires k <= |indexes| && k <= |values|
    {
      Content(indexes[k..], values[k..])
    }
  }

  datatype Op = OpSample(index: nat, value: real) | OpSlideOne | OpSlide(now: nat) | OpReset

  /** A bounded queue: what each operation leaves in a window. */
  function Apply(c: Content, size: nat, duration: nat, op: Op): (r: Content)
    requires 0 < size && |c.indexes| == |c.values| <= size
    ensures |r.indexes| == |r.values| <= size
  {
    match op
    case OpSample(index, value) =>
      var room := if |c.values| == size then c.Drop(1) else c;
      Content(room.indexes + [index], room.values + [value])
    case OpSlideOne => if c.values == [] then c else c.Drop(1)
    case OpSlide(now) => c.Drop(Expired(c.indexes, now, duration))
    case OpReset => Content([], [])
  }

  function ApplyAll(size: nat, duration: nat, ops: seq<Op>): (r: Content)
    requires 0 < size
    ensures |r.indexes| == |r.values| <= size
  {
    if ops == [] then Content([], [])
    else var n := |ops| - 1; Apply(ApplyAll(size, duration, ops[..n]), size, duration, ops[n])
  }

  /** What was sampled since the last reset. */
  function SinceReset(ops: seq<Op>): (r: Content)
    ensures |r.indexes| == |r.values|
  {
    if ops == [] then Content([], [])
    else
      var n := |ops| - 1;
      var c := SinceReset(ops[..n]);
      match ops[n]
      case OpSample(index, value) => Content(c.indexes + [index], c.values + [value])
      case OpReset => Content([], [])
      case _ => c
  }

  ghost predicate IsEndOf(c: Content, all: Content) {
    && |c.indexes| == |c.values| <= |all.indexes| == |all.values|
    && c == all.Drop(|all.values| - |c.values|)
  }

  lemma ApplyKeepsEnd(c: Content, size: nat, duration: nat, op: Op, all: Content)
    requires 0 < size && |c.indexes| == |c.values| <= size && IsEndOf(c, all)
    ensures IsEndOf(Apply(c, size, duration, op),
                    match op
                    case OpSample(index, value) => Content(all.indexes + [index], all.values + [value])
                    case OpReset => Content([], [])
                    case _ => all)
  {
    hide Expired;
  }

  /** How many each operation leaves: a sample adds one up to the size, a slide by one takes one if
      there is one, a slide by time takes the front ones that are too old and stops at the first
      that is not. */
  lemma ApplyLeaves(c: Content, size: nat, duration: nat, op: Op)
    requires 0 < size && |c.indexes| == |c.values| <= size
    ensures var n, left := |c.values|, |Apply(c, size, duration, op).values|;
            match op
            case OpSample(_, _) => left == if n < size then n + 1 else size
            case OpSlideOne => left == if n > 0 then n - 1 else 0
            case OpSlide(now) =>
              && left <= n && (forall i :: 0 <= i < n - left ==> Age(now, c.indexes[i]) > duration)
              && (left > 0 ==> Age(now, c.indexes[n - left]) <= duration)
            case OpReset => left == 0
  {
  }

  /** After any run the window holds the most recent samples since the last reset, in order:
      what it dropped is a prefix. */
  lemma {:induction false} WindowIsMostRecent(size: nat, duration: nat, ops: seq<Op>)
    requires 0 < size
    ensures IsEndOf(ApplyAll(size, duration, ops), SinceReset(ops))
  {
    if ops == [] {
    } else {
      hide IsEndOf, Apply;
      var n := |ops| - 1;
      WindowIsMostRecent(size, duration, ops[..n]);
      ApplyKeepsEnd(ApplyAll(size, duration, ops[..n]), size, duration, ops[n], SinceReset(ops[..n]));
    }
  }

  // ---- How many it holds ----

  /** The last n of s. */
  function Last<T>(s: seq<T>, n: nat): seq<T> {
    if |s| <= n then s else s[|s| - n..]
  }

  lemma LastSnoc<T>(s: seq<T>, n: nat, x: T)
    requires 0 < n
    ensures |Last(s, n)| <= n
    ensures Last(s + [x], n) == (if |Last(s, n)| == n then Last(s, n)[1..] else Last(s, n)) + [x]
  {
  }

  /** Without slides a window holds the last size samples, or all there are. */
  lemma {:induction false} WindowFills(size: nat, duration: nat, ops: seq<Op>)
    requires 0 < size && forall i :: 0 <= i < |ops| ==> ops[i].OpSample? || ops[i].OpReset?
    ensures ApplyAll(size, duration, ops).values == Last(SinceReset(ops).values, size)
  {
    if ops == [] {
    } else {
      hide Last;
      var front := ops[..|ops| - 1];
      WindowFills(size, duration, front);
      if ops[|ops| - 1].OpSample? {
        LastSnoc(SinceReset(front).values, size, ops[|ops| - 1].value);
      } else {
        assert Last<real>([], size) == [] by { NothingLast(size); }
      }
    }
  }

  lemma NothingLast(size: nat)
    ensures Last<real>([], size) == [] && Last<nat>([], size) == []
  {
  }

  /** The time an operation is given. */
  function Time(op: Op): nat {
    match op
    case OpSample(index, _) => index
    case OpSlide(now) => now
    case _ => 0
  }

  ghost predicate UpTo(ops: seq<Op>, now: nat) {
    forall i :: 0 <= i < |ops| ==> Time(ops[i]) <= now
  }

  /** Samples, slides and resets at times that do not go back. */
  ghost predicate InOrder(ops: seq<Op>) {
    forall j :: 0 <= j < |ops| ==>
      && !ops[j].OpSlideOne? && Time(ops[j]) < 0x1_0000_0000_0000_0000
      && (!ops[j].OpReset? ==> UpTo(ops[..j], Time(ops[j])))
  }

  /** The time of the last slide since the last reset. */
  function LastSlide(ops: seq<Op>): nat {
    if ops == [] then 0
    else
      var n := |ops| - 1;
      match ops[n]
      case OpSlide(now) => now
      case OpReset => 0
      case _ => LastSlide(ops[..n])
  }

  lemma InOrderPrefix(ops: seq<Op>)
    requires InOrder(ops) && ops != []
    ensures InOrder(ops[..|ops| - 1])
  {
    var front := ops[..|ops| - 1];
    assert forall j :: 0 <= j < |front| ==> front[j] == ops[j] && front[..j] == ops[..j];
  }

  lemma {:induction false} SampledUpTo(ops: seq<Op>, now: nat)
    requires UpTo(ops, now)
    ensures LastSlide(ops) <= now
    ensures forall i :: 0 <= i < |SinceReset(ops).indexes| ==> SinceReset(ops).indexes[i] <= now
  {
    if ops == [] {
    } else {
      SampledUpTo(ops[..|ops| - 1], now);
    }
  }

  lemma {:induction false} SampledInOrder(ops: seq<Op>)
    requires InOrder(ops)
    ensures Nondecreasing(SinceReset(ops).indexes)
  {
    if ops == [] {
    } else {
      var n := |ops| - 1;
      InOrderPrefix(ops);
      SampledInOrder(ops[..n]);
      if ops[n].OpSample? {
        SampledUpTo(ops[..n], ops[n].index);
      }
    }
  }

  /** One more sample, no older than the others, in a window that holds the recent part of the
      last size samples. */
  lemma SampleKeepsRecent(all: seq<nat>, held: seq<nat>, size: nat, duration: nat, slid: nat, index: nat)
    requires 0 < size && Nondecreasing(all) && slid <= index
    requires held == Recent(Last(all, size), slid, duration)
    ensures (if |held| == size then held[1..] else held) + [index]
            == Recent(Last(all + [index], size), slid, duration)
  {
    var last := Last(all, size);
    assert Nondecreasing(last);
    LastSnoc(all, size, index);
    var k := RecentEnd(last, slid, duration);
    hide Last, Recent, Nondecreasing;
    if |last| < size {
      RecentSnoc(last, index, slid, duration);
    } else {
      RecentSnoc(last[1..], index, slid, duration);
      if k == 0 {
        AllRecent(last[1..], slid, duration);
      }
    }
  }

  lemma SlideKeepsRecentOf(all: seq<nat>, held: seq<nat>, size: nat, duration: nat, slid: nat, now: nat)
    requires Nondecreasing(all) && slid <= now < 0x1_0000_0000_0000_0000
    requires forall i :: 0 <= i < |all| ==> all[i] <= now
    requires held == Recent(Last(all, size), slid, duration)
    ensures held[Expired(held, now, duration)..] == Recent(Last(all, size), now, duration)
  {
    var last := Last(all, size);
    assert Nondecreasing(last) && forall i :: 0 <= i < |last| ==> last[i] <= now;
    var k := RecentEnd(last, slid, duration);
    hide Last, Recent, Expired;
    assert forall i :: 0 <= i < |held| ==> held[i] == last[k + i];
    SlideKeepsRecent(held, now, duration);
    RecentTwice(last, slid, now, duration);
  }

  /** With times in order a window holds exactly the recent part, as of the last slide, of the
      last size samples since the last reset. */
  lemma {:induction false} WindowIsRecentPart(size: nat, duration: nat, ops: seq<Op>)
    requires 0 < size && InOrder(ops)
    ensures ApplyAll(size, duration, ops).indexes
            == Recent(Last(SinceReset(ops).indexes, size), LastSlide(ops), duration)
  {
    if ops == [] {
    } else {
      hide InOrder, Recent, Last, Nondecreasing, Expired;
      var n := |ops| - 1;
      InOrderPrefix(ops);
      WindowIsRecentPart(size, duration, ops[..n]);
      var all, held := SinceReset(ops[..n]).indexes, ApplyAll(size, duration, ops[..n]).indexes;
      SampledInOrder(ops[..n]);
      LatestIsLast(ops);
      if !ops[n].OpReset? {
        SampledUpTo(ops[..n], Time(ops[n]));
      }
      match ops[n] {
        case OpSample(index, _) => SampleKeepsRecent(all, held, size, duration, LastSlide(ops[..n]), index);
        case OpSlide(now) => SlideKeepsRecentOf(all, held, size, duration, LastSlide(ops[..n]), now);
        case OpReset => NothingRecent(size, duration);
        case OpSlideOne => assert false;
      }
    }
  }

  lemma LatestIsLast(ops: seq<Op>)
    requires InOrder(ops) && ops != []
    ensures var n := |ops| - 1;
            && !ops[n].OpSlideOne? && Time(ops[n]) < 0x1_0000_0000_0000_0000
            && (!ops[n].OpReset? ==> UpTo(ops[..n], Time(ops[n])))
  {
  }

  lemma NothingRecent(size: nat, duration: nat)
    ensures Recent(Last([], size), 0, duration) == []
  {
    NothingLast(size);
  }

  /** What the resets of a run threw away. */
  function Forgotten(size: nat, duration: nat, ops: seq<Op>): real
    requires 0 < size
  {
    if ops == [] then 0.0
    else
      var n := |ops| - 1;
      Forgotten(size, duration, ops[..n])
      + if ops[n].OpReset? then Sum(ApplyAll(size, duration, ops[..n]).values) else 0.0
  }

  lemma {:induction false} NothingForgottenWithoutReset(size: nat, duration: nat, ops: seq<Op>)
    requires 0 < size && OpReset !in ops
    ensures Forgotten(size, duration, ops) == 0.0
  {
    if ops == [] {
    } else {
      NothingForgottenWithoutReset(size, duration, ops[..|ops| - 1]);
    }
  }

  /** One sample and a reset: the window is empty, its sum would be that sample. */
  lemma ResetForgets(index: nat, value: real, size: nat, duration: nat)
    requires 0 < size
    ensures var ops := [OpSample(index, value), OpReset];
            ApplyAll(size, duration, ops).values == [] && Forgotten(size, duration, ops) == value
  {
    var first := [OpSample(index, value)];
    assert first[..0] == [];
    assert ApplyAll(size, duration, first).values == [value];
    assert Forgotten(size, duration, first) == 0.0;
    assert Sum([value]) == value by { assert [value][1..] == []; }
    hide Sum;
    assert [OpSample(index, value), OpReset][..1] == first;
  }

  /** How many values an operation takes out. */
  function Dropped(c: Content, size: nat, duration: nat, op: Op): (k: nat)
    requires 0 < size && |c.indexes| == |c.values| <= size
    ensures k <= |c.values|
  {
    match op
    case OpSample(_, _) => if |c.values| == size then 1 else 0
    case OpSlideOne => if c.values == [] then 0 else 1
    case OpSlide(now) => Expired(c.indexes, now, duration)
    case OpReset => |c.values|
  }

  /** The updates of weight -1 since the statistics were last cleared: taking out the only value
      clears them instead. */
  function RemovedAfter(removed: nat, held: nat, dropped: nat): nat {
    if dropped == held then 0 else removed + dropped
  }

  /** That number after a run. */
  function Removed(size: nat, duration: nat, ops: seq<Op>): nat
    requires 0 < size
  {
    if ops == [] then 0
    else
      var n := |ops| - 1;
      var c := ApplyAll(size, duration, ops[..n]);
      RemovedAfter(Removed(size, duration, ops[..n]), |c.values|, Dropped(c, size, duration, ops[n]))
  }

  /** Three samples through a window of two: one was taken out by a weight of -1, so the
      statistics count four samples where two are held. */
  lemma CountMisleads(x: real, y: real, z: real)
    ensures var ops := [OpSample(0, x), OpSample(0, y), OpSample(0, z)];
            ApplyAll(2, 0, ops).values == [y, z] && Removed(2, 0, ops) == 1
  {
    var ops := [OpSample(0, x), OpSample(0, y), OpSample(0, z)];
    assert ops[..2] == [OpSample(0, x), OpSample(0, y)];
    assert ops[..2][..1] == [OpSample(0, x)] && ops[..1][..0] == [];
    assert ApplyAll(2, 0, ops[..2][..1]).values == [x] && Removed(2, 0, ops[..2][..1]) == 0;
    assert ApplyAll(2, 0, ops[..2]).values == [x, y] && Removed(2, 0, ops[..2]) == 0;
  }

  class SlidingWindow {
    const hooks: Hooks
    const duration: nat
    const size: nat
    var front: nat
    var count: nat
    const indexes: array<nat>
    const values: array<real>
    /** `SumSlidingWindow::_sum` */
    var sum: real
    /** `SlidingSummaryStatistics::_statistics` */
    const statistics: WeightedSummaryStatistics
    /** The values a reset of a summing window forgot without taking them out of the sum. */
    ghost var forgotten: real
    /** The updates of weight -1 since the statistics were last cleared. */
    ghost var removed: nat

    /** What the ring holds. */
    ghost var held: Content

    ghost predicate Placed()
      reads this, indexes, values
    {
      && front < size == indexes.Length == values.Length && count <= size
      && held == Content(Ring(indexes[..], front, count), Ring(values[..], front, count))
      && (count == 0 ==> removed == 0)
    }

    lemma Front()
      requires Placed()
      ensures front < size == indexes.Length == values.Length
      ensures |held.indexes| == |held.values| == count <= size && (count == 0 ==> removed == 0)
      ensures count > 0 ==> held.indexes[0] == indexes[front] && held.values[0] == values[front]
    {
    }

    /** What the hooks keep about the values held. */
    ghost predicate Tracks(kept: seq<real>)
      reads this`sum, this`forgotten, this`removed, statistics
    {
      && (hooks.SumHooks? ==> sum == Sum(kept) + forgotten)
      && (hooks.StatisticsHooks? ==>
            && Batch(statistics.State(), kept) && (kept == [] ==> statistics.State() == NOTHING)
            && statistics.count == |kept| + 2 * removed)
    }

    ghost predicate Valid()
      reads this, indexes, values, statistics
    {
      Placed() && Tracks(held.values)
    }

    constructor (hooks: Hooks, duration: nat, size: nat)
      requires size > 0
      ensures Valid() && held == Content([], []) && forgotten == 0.0 && removed == 0
      ensures this.hooks == hooks && this.duration == duration && this.size == size
      ensures fresh(indexes) && fresh(values) && fresh(statistics)
    {
      this.hooks, this.duration, this.size := hooks, duration, size;
      front, count, sum, forgotten, removed, held := 0, 0, 0.0, 0.0, 0, Content([], []);
      indexes, values := new nat[size], new real[size];
      statistics := new WeightedSummaryStatistics();
    }

    method OnAddValue(value: real, ghost before: seq<real>)
      requires Tracks(before)
      modifies this`sum, statistics
      ensures Tracks(before + [value])
    {
      SumSnoc(before, value);
      match hooks
      case NoHooks =>
      case SumHooks => sum := sum + value;
      case StatisticsHooks =>
        BatchAdd(statistics.State(), before, value);
        statistics.Sample(value, 1.0);
    }

    /** Called while the value still counts. */
    method OnRemoveValue(value: real, ghost before: seq<real>)
      requires before != [] && value == before[0] && count == |before| && Tracks(before)
      modifies this`sum, this`removed, statistics
      ensures Tracks(before[1..]) && removed == RemovedAfter(old(removed), |before|, 1)
    {
      removed := RemovedAfter(removed, |before|, 1);
      match hooks
      case NoHooks =>
      case SumHooks => sum := sum - value;
      case StatisticsHooks =>
        if count == 1 {
          statistics.Reset();
        } else {
          BatchRemove(statistics.State(), before);
          statistics.Sample(value, -1.0);
        }
    }

    method ForceSlideOne()
      requires Valid() && count > 0
      modifies this, statistics
      ensures Valid() && forgotten == old(forgotten)
      ensures |old(held).indexes| == |old(held).values| > 0 && held == old(held).Drop(1)
      ensures removed == RemovedAfter(old(removed), |old(held).values|, 1)
    {
      hide Ring, Tracks;
      Front();
      OnRemoveValue(values[front], held.values);
      RingPop(indexes[..], front, count);
      RingPop(values[..], front, count);
      front := front + 1;
      if front == size {
        front := 0;
      }
      count := count - 1;
      held := held.Drop(1);
    }

    method SlideOne()
      requires Valid()
      modifies this, statistics
      ensures Valid() && forgotten == old(forgotten)
      ensures held == Apply(old(held), size, duration, OpSlideOne)
      ensures removed == RemovedAfter(old(removed), |old(held).values|, Dropped(old(held), size, duration, OpSlideOne))
    {
      Front();
      if count == 0 {
        return;
      }
      ForceSlideOne();
    }

    method Slide(now: nat)
      requires Valid()
      modifies this, statistics
      ensures Valid() && forgotten == old(forgotten)
      ensures held == Apply(old(held), size, duration, OpSlide(now))
      ensures removed
              == RemovedAfter(old(removed), |old(held).values|, Dropped(old(held), size, duration, OpSlide(now)))
    {
      hide Ring, Expired, Age, Tracks, Placed;
      Front();
      ghost var k, expired := 0, Expired(held.indexes, now, duration);
      while count > 0 && Age(now, indexes[front]) > duration
        invariant Valid() && front < indexes.Length && forgotten == old(forgotten)
        invariant k <= expired && held == old(held).Drop(k)
        invariant removed == RemovedAfter(old(removed), |old(held).values|, k)
        decreases count
      {
        Front();
        assert old(held).indexes[k] == held.indexes[0];
        ForceSlideOne();
        Front();
        assert old(held).Drop(k).Drop(1) == old(held).Drop(k + 1);
        k := k + 1;
      }
      Front();
      assert count > 0 ==> old(held).indexes[k] == held.indexes[0];
    }

    method Sample(index: nat, value: real)
      requires Valid()
      modifies this, indexes, values, statistics
      ensures Valid() && forgotten == old(forgotten)
      ensures held == Apply(old(held), size, duration, OpSample(index, value))
      ensures removed
              == RemovedAfter(old(removed), |old(held).values|,
                              Dropped(old(held), size, duration, OpSample(index, value)))
    {
      hide Ring, Tracks, Placed;
      Front();
      if count == size {
        ForceSlideOne();
        Front();
      }
      Append(index, value);
    }

    /** Writes the slot at the back. */
    method Append(index: nat, value: real)
      requires Valid() && count < size
      modifies this, indexes, values, statistics
      ensures Valid() && forgotten == old(forgotten) && removed == old(removed)
      ensures held == Content(old(held).indexes + [index], old(held).values + [value])
    {
      hide Ring, Tracks;
      RingPush(indexes[..], front, count, index);
      RingPush(values[..], front, count, value);
      var back := Wrap(front + count, size);
      indexes[back] := index;
      values[back] := value;
      count := count + 1;
      held := Content(held.indexes + [index], held.values + [value]);
      OnAddValue(value, old(held.values));
    }

    /** The statistics window resets its statistics with its content; the summing window keeps
        its sum, which from then on is off by what it held. */
    method Reset()
      requires Valid()
      modifies this, statistics
      ensures Valid() && held == Content([], []) && removed == 0
      ensures forgotten == old(forgotten) + Sum(old(held).values)
    {
      removed := 0;
      forgotten := forgotten + Sum(held.values);
      front := 0;
      count := 0;
      held := Content([], []);
      if hooks.StatisticsHooks? {
        statistics.Reset();
      }
    }

    lemma TracksSum()
      requires Tracks(held.values)
      ensures hooks.SumHooks? ==> (sum == Sum(held.values) <==> forgotten == 0.0)
      ensures hooks.StatisticsHooks? ==>
                Batch(statistics.State(), held.values) && statistics.count == |held.values| + 2 * removed
    {
    }

    /** One operation of a run. */
    method Perform(op: Op)
      requires Valid()
      modifies this, indexes, values, statistics
      ensures Valid() && |old(held).indexes| == |old(held).values| <= size
      ensures held == Apply(old(held), size, duration, op)
      ensures removed == RemovedAfter(old(removed), |old(held).values|, Dropped(old(held), size, duration, op))
      ensures forgotten == old(forgotten) + if op.OpReset? then Sum(old(held).values) else 0.0
    {
      Front();
      hide Placed, Expired, Tracks;
      match op {
        case OpSample(index, value) => Sample(index, value);
        case OpSlideOne => SlideOne();
        case OpSlide(now) => Slide(now);
        case OpReset => Reset();
      }
    }

    /** Any run of operations from an empty window: the statistics but for their counter are the
        batch statistics of what ApplyAll leaves; the counter is right exactly when nothing was
        taken out by a weight of -1 since the statistics were last cleared; and the sum is right
        exactly when the resets threw away nothing. */
    method PerformAll(ops: seq<Op>)
      requires Valid() && held == Content([], []) && forgotten == 0.0 && removed == 0
      modifies this, indexes, values, statistics
      ensures Valid()
      ensures held == ApplyAll(size, duration, ops)
      ensures forgotten == Forgotten(size, duration, ops)
      ensures hooks.SumHooks? ==> (sum == Sum(held.values) <==> Forgotten(size, duration, ops) == 0.0)
      ensures hooks.StatisticsHooks? ==> Batch(statistics.State(), held.values)
      ensures hooks.StatisticsHooks? ==>
                && statistics.count == |held.values| + 2 * Removed(size, duration, ops)
                && (statistics.count == |held.values| <==> Removed(size, duration, ops) == 0)
    {
      Front();
      hide Placed, Tracks, Apply, Dropped, RemovedAfter;
      var i := 0;
      while i < |ops|
        invariant 0 <= i <= |ops|
        invariant Valid() && held == ApplyAll(size, duration, ops[..i])
        invariant forgotten == Forgotten(size, duration, ops[..i]) && removed == Removed(size, duration, ops[..i])
      {
        assert ops[..i + 1][..i] == ops[..i];
        Perform(ops[i]);
        i := i + 1;
      }
      assert ops[..i] == ops;
      TracksSum();
    }
  }
}
