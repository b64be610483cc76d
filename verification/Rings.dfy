/** The ring buffer layout shared by the sliding window and the throttle: count slots of a
    fixed array, from front on, wrapping once. */
module Rings {

  function Wrap(i: nat, size: nat): nat {
    if i >= size then i - size else i
  }

  function Ring<T>(a: seq<T>, front: nat, count: nat): (r: seq<T>)
    requires front < |a| && count <= |a|
    ensures |r| == count
    ensures forall k :: 0 <= k < count ==> r[k] == a[Wrap(front + k, |a|)]
  {
    seq(count, k requires 0 <= k < count => a[Wrap(front + k, |a|)])
  }

  /** Writing the slot behind the last one appends. */
  lemma RingPush<T>(a: seq<T>, front: nat, count: nat, x: T)
    requires front < |a| && count < |a|
    ensures Ring(a[Wrap(front + count, |a|) := x], front, count + 1) == Ring(a, front, count) + [x]
  {
  }

  /** Moving the front drops the first. */
  lemma RingPop<T>(a: seq<T>, front: nat, count: nat)
    requires front < |a| && 0 < count <= |a|
    ensures Ring(a, Wrap(front + 1, |a|), count - 1) == Ring(a, front, count)[1..]
  {
  }

  // ---- Ages ----

  /** `index - _indexes[_front]` on uint64_t. */
  function Age(now: nat, index: nat): nat {
    (now - index) % 0x1_0000_0000_0000_0000
  }

  lemma AgeOfPast(now: nat, index: nat)
    requires index <= now < 0x1_0000_0000_0000_0000
    ensures Age(now, index) == now - index
  {
  }

  /** An index ahead of the clock wraps round to a huge age. */
  lemma AgeOfFuture(now: nat, index: nat)
    requires now < index < 0x1_0000_0000_0000_0000
    ensures Age(now, index) == 0x1_0000_0000_0000_0000 - (index - now)
  {
  }

  /** How many slots `slide` drops: those at the front that are too old. */
  function Expired(indexes: seq<nat>, now: nat, duration: nat): (k: nat)
    ensures k <= |indexes|
    ensures forall i :: 0 <= i < k ==> Age(now, indexes[i]) > duration
    ensures k < |indexes| ==> Age(now, indexes[k]) <= duration
  {
    if indexes == [] || Age(now, indexes[0]) <= duration then 0
    else 1 + Expired(indexes[1..], now, duration)
  }

  ghost predicate Nondecreasing(indexes: seq<nat>) {
    forall i, j :: 0 <= i <= j < |indexes| ==> indexes[i] <= indexes[j]
  }

  function Recent(indexes: seq<nat>, now: nat, duration: nat): seq<nat> {
    if indexes == [] then []
    else (if now - indexes[0] <= duration then [indexes[0]] else []) + Recent(indexes[1..], now, duration)
  }

  /** With indexes in order and none ahead of now, sliding keeps exactly those no older than
      the duration, wherever they stand. */
  lemma {:induction false} SlideKeepsRecent(indexes: seq<nat>, now: nat, duration: nat)
    requires Nondecreasing(indexes) && now < 0x1_0000_0000_0000_0000
    requires forall i :: 0 <= i < |indexes| ==> indexes[i] <= now
    ensures indexes[Expired(indexes, now, duration)..] == Recent(indexes, now, duration)
  {
    if indexes == [] {
    } else {
      AgeOfPast(now, indexes[0]);
      SlideKeepsRecent(indexes[1..], now, duration);
      if now - indexes[0] <= duration {
        AllRecent(indexes, now, duration);
      } else {
        assert indexes[Expired(indexes, now, duration)..] == indexes[1..][Expired(indexes[1..], now, duration)..];
      }
    }
  }

  lemma {:induction false} AllRecent(indexes: seq<nat>, now: nat, duration: nat)
    requires forall i :: 0 <= i < |indexes| ==> now - indexes[i] <= duration
    ensures Recent(indexes, now, duration) == indexes
  {
    if indexes == [] {
    } else {
      AllRecent(indexes[1..], now, duration);
    }
  }

  lemma RecentCons(index: nat, rest: seq<nat>, now: nat, duration: nat)
    ensures Recent([], now, duration) == []
    ensures Recent([index] + rest, now, duration)
            == (if now - index <= duration then [index] else []) + Recent(rest, now, duration)
  {
    assert ([index] + rest)[1..] == rest;
  }

  /** The recent part of indexes in order is an end of them: all, or without the first. */
  lemma {:induction false} RecentEnd(indexes: seq<nat>, now: nat, duration: nat) returns (k: nat)
    requires Nondecreasing(indexes)
    ensures k <= |indexes| && Recent(indexes, now, duration) == indexes[k..]
    ensures k == 0 ==> forall i :: 0 <= i < |indexes| ==> now - indexes[i] <= duration
    ensures k > 0 ==> Recent(indexes, now, duration) == Recent(indexes[1..], now, duration)
  {
    if indexes == [] {
      k := 0;
    } else if now - indexes[0] <= duration {
      k := 0;
      AllRecent(indexes, now, duration);
    } else {
      k := RecentEnd(indexes[1..], now, duration);
      assert indexes[k + 1..] == indexes[1..][k..];
      k := k + 1;
    }
  }

  lemma {:induction false} RecentSnoc(indexes: seq<nat>, index: nat, now: nat, duration: nat)
    requires now <= index
    ensures Recent(indexes + [index], now, duration) == Recent(indexes, now, duration) + [index]
  {
    hide Recent;
    if indexes == [] {
      RecentCons(index, [], now, duration);
      assert [] + [index] == [index] + [];
    } else {
      var rest := indexes[1..];
      assert indexes == [indexes[0]] + rest && indexes + [index] == [indexes[0]] + (rest + [index]);
      RecentCons(indexes[0], rest + [index], now, duration);
      RecentCons(indexes[0], rest, now, duration);
      RecentSnoc(rest, index, now, duration);
    }
  }

  lemma {:induction false} RecentTwice(indexes: seq<nat>, before: nat, now: nat, duration: nat)
    requires before <= now
    ensures Recent(Recent(indexes, before, duration), now, duration) == Recent(indexes, now, duration)
  {
    hide Recent;
    if indexes == [] {
      RecentCons(0, [], before, duration);
    } else {
      var rest := indexes[1..];
      assert indexes == [indexes[0]] + rest;
      RecentCons(indexes[0], rest, before, duration);
      RecentCons(indexes[0], rest, now, duration);
      RecentCons(indexes[0], Recent(rest, before, duration), now, duration);
      RecentTwice(rest, before, now, duration);
      assert [] + Recent(rest, before, duration) == Recent(rest, before, duration);
    }
  }
}
