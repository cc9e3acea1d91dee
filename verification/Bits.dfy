/** The bits of natural numbers. */
module Bits {

  function Pow2(n: nat): (p: nat)
    ensures p > 0
  {
    if n == 0 then 1 else 2*Pow2(n - 1)
  }

  /** (k >> t) & 1 */
  function Bit(k: nat, t: nat): bool {
    if t == 0 then k % 2 == 1 else Bit(k / 2, t - 1)
  }

  /** Adding a multiple of 2^m leaves the bits below m alone. */
  lemma {:induction false} LowBits(x: nat, r: nat, m: nat, t: nat)
    requires t < m
    ensures Bit(x + Pow2(m)*r, t) == Bit(x, t)
  {
    var half := Pow2(m - 1)*r;
    assert Pow2(m)*r == 2*half;
    if t > 0 {
      assert (x + 2*half) / 2 == x / 2 + half;
      LowBits(x / 2, r, m - 1, t - 1);
    }
  }

  /** The bits from m upward are those of the multiple of 2^m. */
  lemma {:induction false} HighBits(x: nat, r: nat, m: nat, t: nat)
    requires x < Pow2(m)
    ensures Bit(x + Pow2(m)*r, m + t) == Bit(r, t)
  {
    if m > 0 {
      var half := Pow2(m - 1)*r;
      assert Pow2(m)*r == 2*half;
      assert (x + 2*half) / 2 == x / 2 + half;
      HighBits(x / 2, r, m - 1, t);
    }
  }

  lemma {:induction false} NoBit(i: nat)
    ensures !Bit(0, i)
  {
    if i > 0 { NoBit(i - 1); }
  }

  /** w | (1 << t) */
  function SetBit(w: nat, t: nat): nat {
    if Bit(w, t) then w else w + Pow2(t)
  }

  lemma {:induction false} SetBitBits(w: nat, t: nat, u: nat)
    ensures Bit(SetBit(w, t), u) == (t == u || Bit(w, u))
  {
    if t > 0 && u > 0 {
      SetBitBits(w / 2, t - 1, u - 1);
      HalfSetBit(w, t);
    } else if t > 0 {
      HalfSetBit(w, t);
    }
  }

  lemma HalfSetBit(w: nat, t: nat)
    requires t > 0
    ensures SetBit(w, t) / 2 == SetBit(w / 2, t - 1) && SetBit(w, t) % 2 == w % 2
  {
    assert Pow2(t) == 2*Pow2(t - 1);
  }

  lemma {:induction false} SetBitBound(w: nat, t: nat, n: nat)
    requires w < Pow2(n) && t < n
    ensures SetBit(w, t) < Pow2(n)
  {
    if t == 0 {
      assert Pow2(n) == 2*Pow2(n - 1);
    } else {
      assert Pow2(n) == 2*Pow2(n - 1);
      SetBitBound(w / 2, t - 1, n - 1);
      HalfSetBit(w, t);
    }
  }

  lemma {:induction false} ZeroBits(t: nat)
    ensures !Bit(0, t)
  {
    if t > 0 {
      ZeroBits(t - 1);
    }
  }

  lemma {:induction false} Pow2Sum(m: nat, n: nat)
    ensures Pow2(m + n) == Pow2(m)*Pow2(n)
  {
    if m > 0 {
      Pow2Sum(m - 1, n);
      Associate(Pow2(m - 1), Pow2(n));
    }
  }

  lemma Associate(p: int, q: int)
    ensures (2*p)*q == 2*(p*q)
  {}

  lemma Pow2Byte()
    ensures Pow2(8) == 0x100
  {
    assert Pow2(8) == 2*Pow2(7) == 4*Pow2(6) == 8*Pow2(5) == 16*Pow2(4) == 32*Pow2(3) == 64*Pow2(2) == 0x100;
  }

  lemma Pow2Word()
    ensures Pow2(64) == 0x1_0000_0000_0000_0000
  {
    hide Pow2;
    Pow2Byte();
    Pow2Sum(8, 8);
    Pow2Sum(16, 16);
    Pow2Sum(32, 32);
  }

  lemma Pow2Half()
    ensures Pow2(16) == 0x1_0000 && Pow2(32) == 0x1_0000_0000
  {
    hide Pow2;
    Pow2Byte();
    Pow2Sum(8, 8);
    Pow2Sum(16, 16);
  }
}
