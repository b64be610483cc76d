/** `Throttle`: at most size uses in any stretch of the given duration. */
module Throttle {
  import opened Rings

  /** slide(t) then tryUseSlot(t) on the accepted times still held. */
  function Use(held: seq<nat>, size: nat, duration: nat, t: nat): (r: (seq<nat>, bool))
    requires 0 < size && |held| <= size
    ensures |r.0| <= size
  {
    var slid := held[Expired(held, t, duration)..];
    if |slid| == size then (slid, false) else (slid + [t], true)
  }

  /** The times accepted over a run, and those still held at its end. */
  function UseAll(size: nat, duration: nat, ts: seq<nat>): (r: (seq<nat>, seq<nat>))
    requires 0 < size
    ensures |r.1| <= size
  {
    if ts == [] then ([], [])
    else
      var n := |ts| - 1;
      var (accepted, held) := UseAll(size, duration, ts[..n]);
      var (held', ok) := Use(held, size, duration, ts[n]);
      (if ok then accepted + [ts[n]] else accepted, held')
  }

  ghost predicate InRange(ts: seq<nat>) {
    Nondecreasing(ts) && forall i :: 0 <= i < |ts| ==> ts[i] < 0x1_0000_0000_0000_0000
  }

  /** The rule a throttle stands for, on the whole history: grant a use when fewer than size
      grants are no older than the duration. */
  function Granted(size: nat, duration: nat, ts: seq<nat>): seq<nat> {
    if ts == [] then []
    else
      var n := |ts| - 1;
      var before := Granted(size, duration, ts[..n]);
      if |Recent(before, ts[n], duration)| < size then before + [ts[n]] else before
  }

  /** What is held is the end of what was accepted; everything in front of it is too old for
      the latest time seen; and grants that are size apart are more than the duration apart. */
  ghost predicate Sound(accepted: seq<nat>, held: seq<nat>, size: nat, duration: nat, last: nat) {
    && |held| <= |accepted| && held == accepted[|accepted| - |held|..]
    && Nondecreasing(accepted)
    && (forall i :: 0 <= i < |accepted| ==> accepted[i] <= last)
    && (forall i :: 0 <= i < |accepted| - |held| ==> last - accepted[i] > duration)
    && (forall i, j :: 0 <= i && i + size <= j < |accepted| ==> accepted[j] - accepted[i] > duration)
  }

  lemma {:induction false} RecentSuffix(ts: seq<nat>, k: nat, now: nat, duration: nat)
    requires k <= |ts| && forall i :: 0 <= i < k ==> now - ts[i] > duration
    ensures Recent(ts, now, duration) == Recent(ts[k..], now, duration)
  {
    if k > 0 {
      RecentSuffix(ts[1..], k - 1, now, duration);
      assert ts[k..] == ts[1..][k - 1..];
    } else {
      assert ts[0..] == ts;
    }
  }

  /** After the slide, what is held is exactly the recent part of what was accepted. */
  lemma SlideSound(accepted: seq<nat>, held: seq<nat>, size: nat, duration: nat, last: nat, t: nat)
    requires last <= t < 0x1_0000_0000_0000_0000
    requires Sound(accepted, held, size, duration, last)
    ensures var slid := held[Expired(held, t, duration)..];
            Sound(accepted, slid, size, duration, t) && slid == Recent(accepted, t, duration)
  {
    hide Expired, Age, Recent;
    var slid := held[Expired(held, t, duration)..];
    var first := |accepted| - |slid|;
    assert slid == accepted[first..];
    forall i | 0 <= i < first ensures t - accepted[i] > duration {
      if i >= |accepted| - |held| {
        assert accepted[i] == held[i - (|accepted| - |held|)];
        AgeOfPast(t, accepted[i]);
      }
    }
    RecentSuffix(accepted, first, t, duration);
    if slid != [] {
      assert slid[0] == accepted[first];
      AgeOfPast(t, slid[0]);
    }
    AllRecent(slid, t, duration);
  }

  lemma UseSound(accepted: seq<nat>, held: seq<nat>, size: nat, duration: nat, last: nat, t: nat)
    requires 0 < size && |held| <= size && last <= t < 0x1_0000_0000_0000_0000
    requires Sound(accepted, held, size, duration, last)
    ensures var (held', ok) := Use(held, size, duration, t);
            && Sound(if ok then accepted + [t] else accepted, held', size, duration, t)
            && ok == (|Recent(accepted, t, duration)| < size)
  {
    hide Expired, Recent;
    SlideSound(accepted, held, size, duration, last, t);
  }

  /** Over any run of nondecreasing times: never more than size grants in a stretch of the
      given duration, and each use is granted exactly when the rule on the whole history grants
      it, so a refusal means size grants within the last duration. */
  lemma {:induction false} ThrottleGrants(size: nat, duration: nat, ts: seq<nat>)
    requires 0 < size && InRange(ts)
    ensures var (accepted, held) := UseAll(size, duration, ts);
            && accepted == Granted(size, duration, ts)
            && Sound(accepted, held, size, duration, if ts == [] then 0 else ts[|ts| - 1])
  {
    hide Use, Recent, Age, Expired;
    if ts == [] {
      assert UseAll(size, duration, ts) == ([], []);
    } else {
      hide Sound;
      var n := |ts| - 1;
      ThrottleGrants(size, duration, ts[..n]);
      var (accepted, held) := UseAll(size, duration, ts[..n]);
      UseSound(accepted, held, size, duration, if n == 0 then 0 else ts[n - 1], ts[n]);
    }
  }

  class Throttle {
    const duration: nat
    const size: nat
    var front: nat
    var count: nat
    const indexes: array<nat>
    /** What the ring holds, oldest first. */
    ghost var held: seq<nat>

    ghost predicate Valid()
      reads this, indexes
    {
      front < size == indexes.Length && count <= size && held == Ring(indexes[..], front, count)
    }

    constructor (duration: nat, size: nat)
      requires size > 0
      ensures Valid() && held == [] && this.duration == duration && this.size == size
      ensures fresh(indexes)
    {
      this.duration, this.size := duration, size;
      front, count, held := 0, 0, [];
      indexes := new nat[size];
    }

    method ForceSlideOne()
      requires Valid() && count > 0
      modifies this`front, this`count, this`held
      ensures Valid() && old(held) != [] && held == old(held)[1..] && count == old(count) - 1
    {
      hide Ring;
      RingPop(indexes[..], front, count);
      front := front + 1;
      if front == size {
        front := 0;
      }
      count := count - 1;
      held := held[1..];
    }

    method SlideOne()
      requires Valid()
      modifies this`front, this`count, this`held
      ensures Valid() && held == if old(held) == [] then [] else old(held)[1..]
    {
      if count == 0 {
        return;
      }
      ForceSlideOne();
    }

    method Slide(now: nat)
      requires Valid()
      modifies this`front, this`count, this`held
      ensures Valid() && held == old(held)[Expired(old(held), now, duration)..]
    {
      hide Age, Expired;
      ghost var k, expired := 0, Expired(held, now, duration);
      while count > 0 && Age(now, indexes[front]) > duration
        invariant Valid() && k <= expired && held == old(held)[k..]
        decreases count
      {
        assert old(held)[k] == held[0] == indexes[front];
        ForceSlideOne();
        k := k + 1;
      }
      assert count > 0 ==> old(held)[k] == held[0] == indexes[front];
    }

    /** Always takes the slot, dropping the oldest when there is no room. */
    method Sample(index: nat)
      requires Valid()
      modifies this`front, this`count, this`held, indexes
      ensures Valid()
      ensures held == (if |old(held)| == size then old(held)[1..] else old(held)) + [index]
    {
      hide Ring;
      if count == size {
        ForceSlideOne();
      }
      RingPush(indexes[..], front, count, index);
      indexes[Wrap(front + count, size)] := index;
      count := count + 1;
      held := held + [index];
    }

    method TryUseSlot(index: nat) returns (ok: bool)
      requires Valid()
      modifies this`front, this`count, this`held, indexes
      ensures Valid() && ok == (|old(held)| < size)
      ensures held == if ok then old(held) + [index] else old(held)
    {
      if count == size {
        return false;
      }
      Sample(index);
      return true;
    }

    method Reset()
      requires Valid()
      modifies this`front, this`count, this`held
      ensures Valid() && held == []
    {
      front := 0;
      count := 0;
      held := [];
    }

    /** A client that slides and then tries a slot. */
    method SlideAndTry(t: nat) returns (ok: bool)
      requires Valid()
      modifies this`front, this`count, this`held, indexes
      ensures Valid() && |old(held)| <= size && (held, ok) == Use(old(held), size, duration, t)
    {
      hide Expired, Ring;
      Slide(t);
      ok := TryUseSlot(t);
    }

    /** That client at each time. */
    method UseAt(ts: seq<nat>) returns (accepted: seq<nat>)
      requires Valid() && held == []
      modifies this`front, this`count, this`held, indexes
      ensures Valid() && (accepted, held) == UseAll(size, duration, ts)
    {
      hide Use, Ring, UseAll;
      accepted := [];
      var i := 0;
      UseAllStep(size, duration, ts, 0);
      while i < |ts|
        invariant 0 <= i <= |ts|
        invariant Valid() && (accepted, held) == UseAll(size, duration, ts[..i])
      {
        UseAllStep(size, duration, ts, i);
        var ok := SlideAndTry(ts[i]);
        if ok {
          accepted := accepted + [ts[i]];
        }
        i := i + 1;
      }
      assert ts[..i] == ts;
    }
  }

  lemma UseAllStep(size: nat, duration: nat, ts: seq<nat>, i: nat)
    requires 0 < size && i <= |ts|
    ensures UseAll(size, duration, ts[..0]) == ([], [])
    ensures i < |ts| ==>
              var (accepted, held) := UseAll(size, duration, ts[..i]);
              var (held', ok) := Use(held, size, duration, ts[i]);
              UseAll(size, duration, ts[..i + 1]) == (if ok then accepted + [ts[i]] else accepted, held')
  {
    hide Use;
    if i < |ts| {
      assert ts[..i + 1][..i] == ts[..i];
    }
  }
}
