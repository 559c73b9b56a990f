/** Shifts and masks on big integers: division and multiplication by powers of two. */
module Powers {

  lemma Scale(a: nat, b: nat, d: nat)
    requires a <= b
    ensures a * d <= b * d
  {
    assert b * d == a * d + (b - a) * d;
  }

  /** The quotient, by its defining property. */
  function Quot(v: nat, d: nat): (q: nat)
    requires d > 0
    ensures 0 <= q * d <= v < q * d + d
  {
    assert v == v / d * d + v % d;
    v / d
  }

  lemma QuotIsUnique(v: nat, d: nat, q: nat)
    requires d > 0 && q * d <= v < q * d + d
    ensures Quot(v, d) == q
  {
    var k := Quot(v, d);
    if k < q {
      Scale(k + 1, q, d);
      Successor(k, d);
    } else if q < k {
      Scale(q + 1, k, d);
      Successor(q, d);
    }
  }

  lemma Successor(k: nat, d: nat)
    ensures (k + 1) * d == k * d + d
  {
  }

  lemma Regroup(q: nat, s: nat, a: nat, b: nat)
    ensures (q * b + s) * a == q * (a * b) + s * a
  {
    assert q * b * a == q * (a * b);
  }

  lemma QuotQuot(v: nat, a: nat, b: nat)
    requires a > 0 && b > 0
    ensures a * b > 0 && Quot(Quot(v, a), b) == Quot(v, a * b)
  {
    var m := Quot(v, a);
    var q := Quot(m, b);
    var s := m - q * b;
    Scale(1, b, a);
    Regroup(q, s, a, b);
    Scale(s + 1, b, a);
    Successor(s, a);
    QuotIsUnique(v, a * b, q);
  }

  function Pow2(n: nat): (p: nat)
    ensures p >= 1
  {
    if n == 0 then 1 else 2 * Pow2(n - 1)
  }

  lemma {:induction false} Pow2Adds(m: nat, n: nat)
    ensures Pow2(m + n) == Pow2(m) * Pow2(n)
  {
    if m > 0 {
      Pow2Adds(m - 1, n);
      assert Pow2(m) * Pow2(n) == 2 * (Pow2(m - 1) * Pow2(n));
    }
  }

  lemma Pow2Values()
    ensures Pow2(8) == 0x100 && Pow2(16) == 0x1_0000 && Pow2(32) == 0x1_0000_0000 && Pow2(33) == 0x2_0000_0000
  {
    assert Pow2(4) == 16;
    Pow2Adds(4, 4);
    Pow2Adds(8, 8);
    Pow2Adds(16, 16);
    Pow2Adds(1, 32);
  }

  /** `(value >> h) << h`. */
  function Masked(v: nat, h: nat): (m: nat)
    ensures m <= v < m + Pow2(h)
  {
    Quot(v, Pow2(h)) * Pow2(h)
  }

  lemma MaskedQuotient(v: nat, h: nat)
    ensures Quot(Masked(v, h), Pow2(h)) == Quot(v, Pow2(h))
    ensures Masked(Masked(v, h), h) == Masked(v, h)
  {
    QuotIsUnique(Masked(v, h), Pow2(h), Quot(v, Pow2(h)));
  }

  /** A value belongs to a block exactly when it lies in the block's interval. */
  lemma BlockIsInterval(a: nat, network: nat, h: nat)
    requires Masked(network, h) == network
    ensures Masked(a, h) == network <==> network <= a <= network + Pow2(h) - 1
  {
    if network <= a < network + Pow2(h) {
      QuotIsUnique(a, Pow2(h), Quot(network, Pow2(h)));
    }
  }

  /** Not one of the IPv6 values that stand for an IPv4 address; `::` and `::1` stand for themselves. */
  predicate ReallyV6(v: nat) {
    v == 0 || v == 1 || (v / 0x1_0000_0000 != 0 && v / 0x1_0000_0000 != 0xffff)
  }

  /** Clearing at most 32 bits leaves the upper 96 alone. */
  lemma NarrowMask(v: nat, h: nat)
    requires h <= 32
    ensures Masked(v, h) / 0x1_0000_0000 == v / 0x1_0000_0000
  {
    Pow2Values();
    Pow2Adds(h, 32 - h);
    MaskedQuotient(v, h);
    QuotQuot(v, Pow2(h), Pow2(32 - h));
    QuotQuot(Masked(v, h), Pow2(h), Pow2(32 - h));
    assert Quot(v, 0x1_0000_0000) == Quot(Masked(v, h), 0x1_0000_0000);
  }

  /** Clearing more makes the upper part even, and zero only when nothing is left. */
  lemma WideMask(v: nat, h: nat)
    requires h > 32
    ensures Masked(v, h) / 0x1_0000_0000 % 2 == 0
    ensures Masked(v, h) / 0x1_0000_0000 == 0 ==> Masked(v, h) == 0
  {
    Pow2Values();
    Pow2Adds(33, h - 33);
    var q, b := Quot(v, Pow2(h)), Pow2(h - 33);
    Regroup(q, 0, 0x2_0000_0000, b);
    assert Masked(v, h) == q * b * 0x2_0000_0000;
    EvenUpper(q * b);
  }

  lemma EvenUpper(k: int)
    ensures k * 0x2_0000_0000 / 0x1_0000_0000 == 2 * k
  {
  }

  /** Masking never lands an IPv6 value among the ones that embed an IPv4 address. */
  lemma MaskingKeepsFamily(v: nat, h: nat)
    requires ReallyV6(v)
    ensures ReallyV6(Masked(v, h))
  {
    if h <= 32 {
      NarrowMask(v, h);
    } else {
      WideMask(v, h);
    }
  }
}
