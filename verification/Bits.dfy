/** Bits of natural numbers: what the bitwise and of two masks tests. */
module Bits {
  import opened Bytes

  /** Some bit is set in both. */
  predicate Overlap(x: nat, y: nat) {
    x != 0 && y != 0 && ((x % 2 == 1 && y % 2 == 1) || Overlap(x / 2, y / 2))
  }

  /** Bit `k` of a number. */
  predicate Bit(x: nat, k: nat) {
    x / Pow2(k) % 2 == 1
  }

  /** The bitwise and of two numbers is not 0 if and only if they have a bit in common. */
  lemma {:induction false} OverlapIffBit(x: nat, y: nat)
    ensures Overlap(x, y) <==> exists k: nat :: Bit(x, k) && Bit(y, k)
  {
    if Overlap(x, y) {
      var k := CommonBit(x, y);
      assert Bit(x, k) && Bit(y, k);
    }
    if k: nat :| Bit(x, k) && Bit(y, k) {
      BitOverlaps(x, y, k);
    }
  }

  lemma {:induction false} CommonBit(x: nat, y: nat) returns (k: nat)
    requires Overlap(x, y)
    ensures Bit(x, k) && Bit(y, k)
  {
    if x % 2 == 1 && y % 2 == 1 {
      k := 0;
    } else {
      k := CommonBit(x / 2, y / 2);
      NextBit(x, k);
      NextBit(y, k);
      k := k + 1;
    }
  }

  lemma {:induction false} BitOverlaps(x: nat, y: nat, k: nat)
    requires Bit(x, k) && Bit(y, k)
    ensures Overlap(x, y)
    decreases k
  {
    NoBits(k);
    if k > 0 {
      NextBit(x, k - 1);
      NextBit(y, k - 1);
      BitOverlaps(x / 2, y / 2, k - 1);
    }
  }

  lemma NoBits(k: nat)
    ensures !Bit(0, k)
  {
  }

  lemma NextBit(x: nat, k: nat)
    ensures Bit(x, k + 1) <==> Bit(x / 2, k)
  {
    HalfFirst(x, Pow2(k));
  }

  lemma HalfFirst(x: nat, p: nat)
    requires p > 0
    ensures x / (2 * p) == x / 2 / p
  {
    var q, r, b := x / 2 / p, x / 2 % p, x % 2;
    assert x == (2 * p) * q + (2 * r + b);
    DivisionIsUnique(x, 2 * p, q, 2 * r + b);
  }

  lemma {:induction false} DivisionIsUnique(x: nat, d: nat, q: nat, rest: nat)
    requires x == d * q + rest && rest < d
    ensures x / d == q
    decreases q
  {
    if q > 0 {
      DivisionIsUnique(x - d, d, q - 1, rest);
      assert x == (x - d) + d;
      OneMore(x - d, d);
    }
  }

  lemma OneMore(x: nat, d: nat)
    requires d > 0
    ensures (x + d) / d == x / d + 1
  {
    var q, q' := x / d, (x + d) / d;
    var rest, rest' := x % d, (x + d) % d;
    assert x == d * q + rest && x + d == d * q' + rest';
    Multiple(d, q' - q - 1);
    assert d * (q' - q - 1) == d * q' - d * q - d;
  }

  lemma Multiple(d: int, n: int)
    requires d >= 0
    ensures n >= 1 ==> d * n >= d
    ensures n <= -1 ==> d * n <= -d
  {
  }

  lemma {:induction false} BitsOfPower(k: nat, j: nat)
    ensures Bit(Pow2(k), j) <==> j == k
  {
    if j == 0 {
      assert k > 0 ==> Pow2(k) % 2 == 0;
    } else if k == 0 {
      NextBit(1, j - 1);
      NoBits(j - 1);
    } else {
      NextBit(Pow2(k), j - 1);
      BitsOfPower(k - 1, j - 1);
    }
  }

  lemma {:induction false} PowersOfByte(k: nat)
    requires k < 8
    ensures Pow2(k) < 256
  {
    assert Pow2(3) == 8;
    assert k > 3 ==> Pow2(k) == 2 * Pow2(k - 1);
    if k > 3 {
      assert Pow2(7) == 2 * Pow2(6) == 4 * Pow2(5) == 8 * Pow2(4) == 16 * Pow2(3);
    }
  }

  function Ones(bits: nat): nat {
    if bits == 0 then 0 else 1 + 2 * Ones(bits - 1)
  }

  lemma {:induction false} OverlapOnes(x: nat, bits: nat)
    requires x < Pow2(bits)
    ensures Overlap(x, Ones(bits)) <==> x != 0
    ensures Ones(8) == 255
  {
    if x != 0 {
      OverlapOnes(x / 2, bits - 1);
    }
    assert Ones(8) == 1 + 2 * (1 + 2 * (1 + 2 * (1 + 2 * Ones(4)))) && Ones(4) == 15;
  }
}
