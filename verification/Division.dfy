/** Integer division facts the time arithmetic needs. */
module Division {

  lemma ProductNonnegative(a: int, b: int)
    requires a >= 0 && b >= 0
    ensures a * b >= 0
  {
  }

  lemma NonzeroMultiple(k: int, d: int)
    requires d > 0 && k != 0
    ensures k * d >= d || k * d <= -d
  {
    if k >= 1 {
      ProductNonnegative(k - 1, d);
    } else {
      ProductNonnegative(-1 - k, d);
    }
  }

  lemma DivUnique(a: int, d: int, q: int, r: int)
    requires a == q * d + r && 0 <= r < d
    ensures a / d == q
  {
    var p := a / d;
    assert a == p * d + a % d;
    assert (q - p) * d == q * d - p * d;
    if p != q {
      NonzeroMultiple(q - p, d);
    }
  }

  lemma DivLess(a: nat, d: nat)
    requires 0 < d
    ensures a < d ==> a / d == 0
    ensures a >= d ==> a / d == (a - d) / d + 1
  {
    if a < d {
      DivUnique(a, d, 0, a);
    } else {
      var q, r := (a - d) / d, (a - d) % d;
      assert a == (q + 1) * d + r;
      DivUnique(a, d, q + 1, r);
    }
  }
}
