/** Division with remainder and powers of two. */
module Arithmetic {

  lemma Distributes(p: int, q: int, w: int)
    ensures (p - q) * w == p * w - q * w
    ensures (p + q) * w == p * w + q * w
  {
  }

  lemma AtLeastOne(d: int, w: int)
    requires d >= 1 && w >= 1
    ensures d * w >= w
  {
    Distributes(d - 1, 1, w);
    assert (d - 1) * w >= 0;
  }

  lemma Ordered(p: int, q: int, w: int)
    requires p < q && w >= 1
    ensures p * w + w <= q * w
  {
    AtLeastOne(q - p, w);
    Distributes(q, p, w);
  }

  /** Quotient and remainder are unique. */
  lemma DivModUnique(x: int, w: int, q: int, r: int)
    requires w >= 1 && x == q * w + r && 0 <= r < w
    ensures x / w == q && x % w == r
  {
    var p := x / w;
    assert x == p * w + x % w;
    if p < q {
      Ordered(p, q, w);
    } else if q < p {
      Ordered(q, p, w);
    }
  }

  lemma RemainderFits(x: nat, w: nat)
    requires w >= 1
    ensures x % w <= x
  {
    assert x == x / w * w + x % w;
    assert x / w * w >= 0;
  }

  function Pow2(k: nat): (r: nat)
    ensures r >= 1
  {
    if k == 0 then 1 else 2 * Pow2(k - 1)
  }

  lemma {:induction false} Pow2Grows(j: nat, k: nat)
    requires j < k
    ensures 2 * Pow2(j) <= Pow2(k)
  {
    if j < k - 1 {
      Pow2Grows(j, k - 1);
    }
  }

  lemma {:induction false} Pow2Sum(j: nat, k: nat)
    ensures Pow2(j + k) == Pow2(j) * Pow2(k)
  {
    if j > 0 {
      Pow2Sum(j - 1, k);
      assert Pow2(j) * Pow2(k) == 2 * (Pow2(j - 1) * Pow2(k)) by {
        Distributes(Pow2(j - 1), Pow2(j - 1), Pow2(k));
      }
    }
  }

  lemma Pow2Values()
    ensures Pow2(8) == 0x100 && Pow2(16) == 0x1_0000 && Pow2(32) == 0x1_0000_0000
  {
    Pow2Sum(8, 8);
    Pow2Sum(16, 16);
  }
}
