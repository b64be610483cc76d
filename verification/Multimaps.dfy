/** `std::multimap` keyed by time, as the scheduler and the replayer use it: entries are
    held in key order and an insertion goes after every equal key.  Each entry carries the
    number of insertions made before it, so that "first inserted, first out" among equal
    keys can be stated. */
module Multimaps {

  datatype Entry<+T> = Entry(key: nat, serial: nat, value: T)

  datatype Multimap<+T> = Multimap(entries: seq<Entry<T>>, nextSerial: nat)

  /** Key order, ties broken by insertion order. */
  predicate Before<T>(a: Entry<T>, b: Entry<T>) {
    a.key < b.key || (a.key == b.key && a.serial < b.serial)
  }

  ghost predicate Valid<T>(m: Multimap<T>) {
    && (forall i, j :: 0 <= i < j < |m.entries| ==> Before(m.entries[i], m.entries[j]))
    && (forall i :: 0 <= i < |m.entries| ==> m.entries[i].serial < m.nextSerial)
  }

  /** Where a new entry with this key goes: after every key that is not greater. */
  function UpperBound<T>(entries: seq<Entry<T>>, key: nat): (p: nat)
    ensures p <= |entries|
    ensures forall i :: 0 <= i < p ==> entries[i].key <= key
    ensures p < |entries| ==> key < entries[p].key
  {
    if entries == [] || key < entries[0].key then 0 else 1 + UpperBound(entries[1..], key)
  }

  function Emplace<T>(m: Multimap<T>, key: nat, value: T): Multimap<T> {
    var p := UpperBound(m.entries, key);
    Multimap(m.entries[..p] + [Entry(key, m.nextSerial, value)] + m.entries[p..], m.nextSerial + 1)
  }

  function PopFront<T>(m: Multimap<T>): Multimap<T>
    requires m.entries != []
  {
    m.(entries := m.entries[1..])
  }

  lemma PopFrontKeepsValid<T>(m: Multimap<T>)
    requires m.entries != [] && Valid(m)
    ensures Valid(PopFront(m))
    ensures AllAfter(m.entries[0], PopFront(m))
  {
  }

  lemma HeadSerial<T>(m: Multimap<T>)
    requires m.entries != [] && Valid(m)
    ensures forall x :: x in m.entries ==> x.serial < m.nextSerial
  {
  }

  lemma EmplaceKeepsValid<T>(m: Multimap<T>, key: nat, value: T)
    requires Valid(m)
    ensures Valid(Emplace(m, key, value))
  {
    var p := UpperBound(m.entries, key);
    var e := Entry(key, m.nextSerial, value);
    var r := Emplace(m, key, value).entries;
    forall i, j | 0 <= i < j < |r| ensures Before(r[i], r[j]) {
      if j > p && i < p {
        assert r[i] == m.entries[i] && r[j] == m.entries[j - 1];
      } else if j > p && i > p {
        assert r[i] == m.entries[i - 1] && r[j] == m.entries[j - 1];
      } else if j > p && p < |m.entries| {
        assert r[i] == e && r[j] == m.entries[j - 1];
        assert j - 1 == p || Before(m.entries[p], m.entries[j - 1]);
      }
    }
  }

  /** An insertion adds its entry and disturbs no other. */
  lemma EmplaceEntries<T>(m: Multimap<T>, key: nat, value: T)
    ensures forall e :: e in Emplace(m, key, value).entries ==> e in m.entries || e == Entry(key, m.nextSerial, value)
    ensures forall e :: e in m.entries ==> e in Emplace(m, key, value).entries
    ensures Entry(key, m.nextSerial, value) in Emplace(m, key, value).entries
  {
    var p := UpperBound(m.entries, key);
    assert m.entries == m.entries[..p] + m.entries[p..];
  }

  /** Every entry of a map comes after e. */
  ghost predicate AllAfter<T, U>(e: Entry<U>, m: Multimap<T>) {
    forall x :: x in m.entries ==> e.key < x.key || (e.key == x.key && e.serial < x.serial)
  }

  /** Two maps with the same keys and serials, entry by entry. */
  ghost predicate SameKeys<T, U>(a: Multimap<T>, b: Multimap<U>) {
    && |a.entries| == |b.entries| && a.nextSerial == b.nextSerial
    && forall i :: 0 <= i < |a.entries| ==>
         a.entries[i].key == b.entries[i].key && a.entries[i].serial == b.entries[i].serial
  }

  lemma {:induction false} SameUpperBound<T, U>(a: seq<Entry<T>>, b: seq<Entry<U>>, key: nat)
    requires |a| == |b| && forall i :: 0 <= i < |a| ==> a[i].key == b[i].key
    ensures UpperBound(a, key) == UpperBound(b, key)
  {
    if a != [] && a[0].key <= key {
      SameUpperBound(a[1..], b[1..], key);
    }
  }

  /** Inserting at the same key in both keeps them in step, and pairs each old entry with its
      old partner. */
  lemma EmplaceKeepsSameKeys<T, U>(a: Multimap<T>, b: Multimap<U>, key: nat, v: T, w: U)
    requires SameKeys(a, b)
    ensures var a', b' := Emplace(a, key, v), Emplace(b, key, w);
            SameKeys(a', b')
            && forall i :: 0 <= i < |a'.entries| ==>
                 || (a'.entries[i].value == v && b'.entries[i].value == w)
                 || exists j :: 0 <= j < |a.entries| && a'.entries[i] == a.entries[j] && b'.entries[i] == b.entries[j]
  {
    SameUpperBound(a.entries, b.entries, key);
    var p := UpperBound(a.entries, key);
    var a', b' := Emplace(a, key, v), Emplace(b, key, w);
    forall i | 0 <= i < |a'.entries| && i != p
      ensures exists j :: 0 <= j < |a.entries| && a'.entries[i] == a.entries[j] && b'.entries[i] == b.entries[j]
    {
      var j := if i < p then i else i - 1;
      assert a'.entries[i] == a.entries[j] && b'.entries[i] == b.entries[j];
    }
  }
}
