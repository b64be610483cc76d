/** `OrderStatistics`: samples sorted on demand, and the fractiles read off them. */
module Order {

  predicate IsSorted(s: seq<nat>) {
    forall i, j :: 0 <= i <= j < |s| ==> s[i] <= s[j]
  }

  function Insert(s: seq<nat>, x: nat): (r: seq<nat>)
    ensures |r| == |s| + 1
  {
    if s == [] || x <= s[0] then [x] + s else [s[0]] + Insert(s[1..], x)
  }

  /** What `std::sort` leaves. */
  function Sort(s: seq<nat>): (r: seq<nat>)
    ensures |r| == |s|
  {
    if s == [] then [] else Insert(Sort(s[1..]), s[0])
  }

  lemma {:induction false} InsertPermutes(s: seq<nat>, x: nat)
    ensures multiset(Insert(s, x)) == multiset(s) + multiset{x}
  {
    if s != [] && x > s[0] {
      InsertPermutes(s[1..], x);
      assert s == [s[0]] + s[1..];
    }
  }

  lemma {:induction false} InsertSorts(s: seq<nat>, x: nat)
    requires IsSorted(s)
    ensures IsSorted(Insert(s, x))
    ensures s != [] ==> Insert(s, x)[0] == s[0] || Insert(s, x)[0] == x
  {
    if s != [] && x > s[0] {
      InsertSorts(s[1..], x);
      SortedCons(s[0], Insert(s[1..], x));
    }
  }

  lemma SortedCons(x: nat, s: seq<nat>)
    requires IsSorted(s) && (s != [] ==> x <= s[0])
    ensures IsSorted([x] + s)
  {
  }

  lemma {:induction false} SortSorts(s: seq<nat>)
    ensures IsSorted(Sort(s)) && multiset(Sort(s)) == multiset(s)
  {
    if s == [] {
    } else {
      SortSorts(s[1..]);
      InsertSorts(Sort(s[1..]), s[0]);
      InsertPermutes(Sort(s[1..]), s[0]);
      assert s == [s[0]] + s[1..];
    }
  }

  lemma HeadIsLeast(a: seq<nat>, b: seq<nat>)
    requires a != [] && b != [] && IsSorted(a) && multiset(a) == multiset(b)
    ensures a[0] <= b[0]
  {
    assert b[0] in multiset(a);
  }

  lemma TailMultiset(a: seq<nat>)
    requires a != []
    ensures multiset(a[1..]) == multiset(a) - multiset{a[0]}
  {
    assert a == [a[0]] + a[1..];
  }

  /** There is only one way to sort. */
  lemma {:induction false} SortedUnique(a: seq<nat>, b: seq<nat>)
    requires IsSorted(a) && IsSorted(b) && multiset(a) == multiset(b)
    ensures a == b
  {
    if a == [] {
      assert |multiset(b)| == |b|;
    } else {
      assert a[0] in multiset(b);
      HeadIsLeast(a, b);
      HeadIsLeast(b, a);
      TailMultiset(a);
      TailMultiset(b);
      SortedUnique(a[1..], b[1..]);
    }
  }

  // ---- Fractiles ----

  /** `static_cast<size_t>(f * count)` */
  function Rank(n: nat, f: real): int {
    (f * n as real).Floor
  }

  /** The rank names a sample exactly when f is below 1: the assertion in the code also lets
      f = 1 through, which reads one past the end. */
  lemma RankInBounds(n: nat, f: real)
    requires 0 < n && 0.0 <= f <= 1.0
    ensures 0 <= Rank(n, f)
    ensures Rank(n, f) < n <==> f < 1.0
  {
    var c := n as real;
    assert f * c >= 0.0;
    assert c - f * c == (1.0 - f) * c;
    if f < 1.0 {
      assert (1.0 - f) * c > 0.0;
    } else {
      assert f * c == c;
    }
  }

  lemma RankMonotone(n: nat, f: real, g: real)
    requires f <= g
    ensures Rank(n, f) <= Rank(n, g)
  {
    assert g * n as real - f * n as real == (g - f) * n as real;
    assert (g - f) * n as real >= 0.0;
  }

  function Fractile(s: seq<nat>, f: real): nat
    requires s != [] && 0.0 <= f < 1.0
  {
    RankInBounds(|s|, f);
    Sort(s)[Rank(|s|, f)]
  }

  lemma FractileMonotone(s: seq<nat>, f: real, g: real)
    requires s != [] && 0.0 <= f <= g < 1.0
    ensures Fractile(s, f) <= Fractile(s, g)
  {
    SortSorts(s);
    RankInBounds(|s|, f);
    RankInBounds(|s|, g);
    RankMonotone(|s|, f, g);
  }

  function Below(s: seq<nat>, v: nat): nat {
    if s == [] then 0 else (if s[0] < v then 1 else 0) + Below(s[1..], v)
  }

  function AtMost(s: seq<nat>, v: nat): nat {
    if s == [] then 0 else (if s[0] <= v then 1 else 0) + AtMost(s[1..], v)
  }

  lemma {:induction false} InsertCounts(s: seq<nat>, x: nat, v: nat)
    ensures Below(Insert(s, x), v) == Below(s, v) + if x < v then 1 else 0
    ensures AtMost(Insert(s, x), v) == AtMost(s, v) + if x <= v then 1 else 0
  {
    if s == [] || x <= s[0] {
      assert ([x] + s)[1..] == s;
    } else {
      InsertCounts(s[1..], x, v);
      assert Insert(s, x)[1..] == Insert(s[1..], x);
    }
  }

  lemma {:induction false} SortCounts(s: seq<nat>, v: nat)
    ensures Below(Sort(s), v) == Below(s, v) && AtMost(Sort(s), v) == AtMost(s, v)
  {
    if s == [] {
    } else {
      SortCounts(s[1..], v);
      InsertCounts(Sort(s[1..]), s[0], v);
    }
  }

  lemma {:induction false} SortedCounts(s: seq<nat>, k: nat, v: nat)
    requires IsSorted(s) && k < |s| && s[k] == v
    ensures Below(s, v) <= k && k + 1 <= AtMost(s, v)
  {
    if k > 0 {
      SortedCounts(s[1..], k - 1, v);
    } else {
      NoneBelow(s, v);
    }
  }

  lemma {:induction false} NoneBelow(s: seq<nat>, v: nat)
    requires forall i :: 0 <= i < |s| ==> v <= s[i]
    ensures Below(s, v) == 0
  {
    if s == [] {
    } else {
      NoneBelow(s[1..], v);
    }
  }

  lemma RankIs(n: nat, f: real)
    requires 0.0 <= f
    ensures Rank(n, f) as real <= f * n as real < Rank(n, f) as real + 1.0
  {
  }

  /** No more than the fraction f of the samples lie strictly below a fractile, and more than
      that fraction do not lie above it. */
  lemma FractileSplits(s: seq<nat>, f: real)
    requires s != [] && 0.0 <= f < 1.0
    ensures var v := Fractile(s, f);
            v in s && Below(s, v) as real <= f * |s| as real < AtMost(s, v) as real
  {
    var v := Fractile(s, f);
    RankInBounds(|s|, f);
    RankIs(|s|, f);
    SortSorts(s);
    assert v in multiset(Sort(s));
    SortedCounts(Sort(s), Rank(|s|, f), v);
    SortCounts(s, v);
  }

  function Least(s: seq<nat>): nat
    requires s != []
  {
    Sort(s)[0]
  }

  function Greatest(s: seq<nat>): nat
    requires s != []
  {
    Sort(s)[|s| - 1]
  }

  lemma LeastAndGreatest(s: seq<nat>)
    requires s != []
    ensures Least(s) in s && Greatest(s) in s
    ensures forall x :: x in s ==> Least(s) <= x <= Greatest(s)
  {
    SortSorts(s);
    assert Least(s) in multiset(Sort(s)) && Greatest(s) in multiset(Sort(s));
    forall x | x in s ensures Least(s) <= x <= Greatest(s) {
      assert x in multiset(s) && x in multiset(Sort(s));
      var i :| 0 <= i < |s| && Sort(s)[i] == x;
    }
  }

  class OrderStatistics {
    var samples: seq<nat>
    var dirty: bool
    /** The samples since the last reset, in the order they came. */
    ghost var taken: seq<nat>

    ghost predicate Valid()
      reads this
    {
      multiset(samples) == multiset(taken) && |samples| == |taken| && (!dirty ==> IsSorted(samples))
    }

    constructor ()
      ensures Valid() && taken == []
    {
      samples, dirty, taken := [], false, [];
    }

    method Sample(t: nat)
      requires Valid()
      modifies this
      ensures Valid() && taken == old(taken) + [t]
    {
      samples := samples + [t];
      dirty := true;
      taken := taken + [t];
    }

    method Reset()
      modifies this
      ensures Valid() && taken == []
    {
      samples, dirty, taken := [], false, [];
    }

    /** Sorts if anything was added since the last time; the queries call it first. */
    method Update()
      requires Valid()
      modifies this`samples, this`dirty
      ensures Valid() && samples == Sort(taken)
    {
      SortSorts(taken);
      if dirty {
        SortSorts(samples);
        samples := Sort(samples);
        dirty := false;
      }
      SortedUnique(samples, Sort(taken));
    }

    method Min() returns (m: nat)
      requires Valid()
      modifies this`samples, this`dirty
      ensures Valid() && m == if taken == [] then 0 else Least(taken)
    {
      if |samples| == 0 {
        return 0;
      }
      Update();
      return samples[0];
    }

    method Max() returns (m: nat)
      requires Valid()
      modifies this`samples, this`dirty
      ensures Valid() && m == if taken == [] then 0 else Greatest(taken)
    {
      if |samples| == 0 {
        return 0;
      }
      Update();
      return samples[|samples| - 1];
    }

    method FractileAt(f: real) returns (m: nat)
      requires Valid() && 0.0 <= f < 1.0
      modifies this`samples, this`dirty
      ensures Valid() && m == if taken == [] then 0 else Fractile(taken, f)
    {
      if |samples| == 0 {
        return 0;
      }
      hide Sort, Rank, IsSorted;
      Update();
      RankInBounds(|samples|, f);
      return samples[Rank(|samples|, f)];
    }
  }
}
