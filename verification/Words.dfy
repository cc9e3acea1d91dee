/**
 The 32-bit word operations of ChaCha20 and BLAKE2s, and four words side by side
 as the NEON code has them.
 */
module Words {
  import opened MachineInts
  import opened Bits

  /** Exclusive or of the low n bits */
  function XorBits(a: nat, b: nat, n: nat): (r: nat)
    ensures r < Pow2(n)
  {
    if n == 0 then 0 else 2*XorBits(a / 2, b / 2, n - 1) + (a + b) % 2
  }

  /** Xor with the same value twice changes nothing. */
  lemma {:induction false} XorTwice(a: nat, b: nat, n: nat)
    requires a < Pow2(n)
    ensures XorBits(XorBits(a, b, n), b, n) == a
  {
    if n > 0 {
      var h := XorBits(a / 2, b / 2, n - 1);
      XorTwice(a / 2, b / 2, n - 1);
      hide XorBits;
      XorStep(a, b, n);
      XorStep(XorBits(a, b, n), b, n);
      LastBit(h, a, b);
    }
  }

  lemma LastBit(h: nat, a: nat, b: nat)
    ensures (2*h + (a + b) % 2) / 2 == h && (2*h + (a + b) % 2 + b) % 2 == a % 2
  {}

  lemma XorStep(a: nat, b: nat, n: nat)
    requires n > 0
    ensures XorBits(a, b, n) == 2*XorBits(a / 2, b / 2, n - 1) + (a + b) % 2
  {}

  /** Shifted left by m */
  function Shl(x: nat, m: nat): nat {
    if m == 0 then x else 2*Shl(x, m - 1)
  }

  /** Xor acts on low and high part separately. */
  lemma {:induction false} XorSplit(a: nat, a': nat, b: nat, b': nat, m: nat, n: nat)
    requires a < Pow2(m) && b < Pow2(m)
    ensures XorBits(a + Shl(a', m), b + Shl(b', m), m + n) == XorBits(a, b, m) + Shl(XorBits(a', b', n), m)
  {
    hide XorBits;
    if m == 0 {
      NoBits(a, b);
    } else {
      XorSplit(a / 2, a', b / 2, b', m - 1, n);
      SplitStep(a, Shl(a', m - 1), b, Shl(b', m - 1), m, n, Shl(XorBits(a', b', n), m - 1));
    }
  }

  lemma NoBits(a: nat, b: nat)
    ensures XorBits(a, b, 0) == 0
  {}

  lemma ShlByte(x: nat)
    ensures Shl(x, 8) == 0x100*x
  {
    assert Shl(x, 2) == 2*Shl(x, 1) == 4*Shl(x, 0) == 4*x;
    assert Shl(x, 4) == 2*Shl(x, 3) == 4*Shl(x, 2);
    assert Shl(x, 8) == 2*Shl(x, 7) == 4*Shl(x, 6) == 8*Shl(x, 5) == 0x10*Shl(x, 4);
  }

  lemma SplitStep(a: nat, h: nat, b: nat, k: nat, m: nat, n: nat, x: int)
    requires m > 0 && XorBits(a / 2 + h, b / 2 + k, m - 1 + n) == XorBits(a / 2, b / 2, m - 1) + x
    ensures XorBits(a + 2*h, b + 2*k, m + n) == XorBits(a, b, m) + 2*x
  {
    hide XorBits, Pow2;
    Halve(a, h);
    Halve(b, k);
    Parity(a, h, b, k);
    XorStep(a + 2*h, b + 2*k, m + n);
    XorStep(a, b, m);
  }

  lemma Halve(a: nat, h: nat)
    ensures (a + 2*h) / 2 == a / 2 + h
  {}

  lemma Parity(a: nat, h: nat, b: nat, k: nat)
    ensures ((a + 2*h) + (b + 2*k)) % 2 == (a + b) % 2
  {}

  function Xor(a: u32, b: u32): u32 {
    Pow2Half();
    XorBits(a as int, b as int, 32) as u32
  }

  lemma {:induction false} XorBitsCommute(a: nat, b: nat, n: nat)
    ensures XorBits(a, b, n) == XorBits(b, a, n)
  {
    if n > 0 { XorBitsCommute(a / 2, b / 2, n - 1); }
  }

  lemma {:induction false} XorBitsAssociate(a: nat, b: nat, c: nat, n: nat)
    ensures XorBits(XorBits(a, b, n), c, n) == XorBits(a, XorBits(b, c, n), n)
  {
    hide XorBits;
    if n == 0 {
      NoBits(XorBits(a, b, 0), c);
      NoBits(a, XorBits(b, c, 0));
    } else {
      XorBitsAssociate(a / 2, b / 2, c / 2, n - 1);
      AssociateStep(XorBits(a, b, n), XorBits(b, c, n), a, b, c, n);
    }
  }

  lemma AssociateStep(p: nat, q: nat, a: nat, b: nat, c: nat, n: nat)
    requires n > 0 && p == XorBits(a, b, n) && q == XorBits(b, c, n)
    requires XorBits(XorBits(a / 2, b / 2, n - 1), c / 2, n - 1) == XorBits(a / 2, XorBits(b / 2, c / 2, n - 1), n - 1)
    ensures XorBits(p, c, n) == XorBits(a, q, n)
  {
    hide XorBits;
    var h, k := XorBits(a / 2, b / 2, n - 1), XorBits(b / 2, c / 2, n - 1);
    XorStep(a, b, n);
    XorStep(b, c, n);
    XorStep(p, c, n);
    XorStep(a, q, n);
    LastBit(h, a, b);
    LastBit(k, b, c);
    ParityThree(p, q, h, k, a, b, c);
  }

  lemma ParityThree(p: nat, q: nat, h: nat, k: nat, a: nat, b: nat, c: nat)
    requires p == 2*h + (a + b) % 2 && q == 2*k + (b + c) % 2
    ensures (p + c) % 2 == (a + q) % 2
  {}

  /** The order of three words does not matter. */
  lemma XorOrder(a: u32, b: u32, c: u32)
    ensures Xor(Xor(b, c), a) == Xor(Xor(a, b), c)
  {
    Pow2Half();
    hide XorBits;
    XorBitsAssociate(a as int, b as int, c as int, 32);
    XorBitsCommute(a as int, XorBits(b as int, c as int, 32), 32);
  }

  function XorByte(a: byte, b: byte): byte {
    Pow2Byte();
    XorBits(a as int, b as int, 8) as byte
  }

  lemma XorByteTwice(a: byte, b: byte)
    ensures XorByte(XorByte(a, b), b) == a
  {
    Pow2Byte();
    XorTwice(a as int, b as int, 8);
  }

  // The two words of a 64-bit counter.

  function Low(n: nat): u32 { (n % TWO_32) as u32 }

  function High(n: nat): u32 { (n / TWO_32 % TWO_32) as u32 }

  /** The counter's add with carry */
  lemma Carry(n: nat, k: nat)
    requires k < TWO_32
    ensures Low(n + k) as int == (Low(n) as int + k) % TWO_32
    ensures High(n + k) as int == (High(n) as int + (if (Low(n) as int + k) % TWO_32 < k then 1 else 0)) % TWO_32
  {
    var q, r := n / TWO_32, n % TWO_32;
    assert n == q*TWO_32 + r;
    if r + k < TWO_32 {
      Quotient(n + k, q, r + k);
    } else {
      Quotient(n + k, q + 1, r + k - TWO_32);
      NextHigh(q);
    }
  }

  lemma Quotient(n: int, q: int, r: int)
    requires n == q*TWO_32 + r && 0 <= r < TWO_32
    ensures n / TWO_32 == q && n % TWO_32 == r
  {}

  lemma NextHigh(q: int)
    ensures (q % TWO_32 + 1) % TWO_32 == (q + 1) % TWO_32
  {}

  /** Addition modulo 2^32 */
  function Add(a: u32, b: u32): u32 {
    ((a as int + b as int) % 0x1_0000_0000) as u32
  }

  /** Rotation: the low 32 - n bits move up, the others come down. */
  function Rotl(x: u32, n: nat): u32
    requires n <= 32
  {
    RotlRange(x as int, n);
    (Pow2(n)*(x as int % Pow2(32 - n)) + x as int / Pow2(32 - n)) as u32
  }

  lemma RotlRange(x: int, n: nat)
    requires 0 <= x < 0x1_0000_0000 && n <= 32
    ensures 0 <= Pow2(n)*(x % Pow2(32 - n)) + x / Pow2(32 - n) < 0x1_0000_0000
  {
    var p, q := Pow2(n), Pow2(32 - n);
    Pow2Sum(n, 32 - n);
    Pow2Half();
    hide Pow2;
    QuotientBelow(x, p, q);
    RemainderBelow(p, x % q, q);
  }

  lemma QuotientBelow(x: int, p: int, q: int)
    requires q > 0 && 0 <= x < p*q
    ensures 0 <= x / q < p
  {}

  lemma RemainderBelow(p: int, r: int, q: int)
    requires p > 0 && 0 <= r < q
    ensures 0 <= p*r <= p*q - p
  {
    NotNegative(p, r);
    NotNegative(p, q - 1 - r);
    assert p*(q - 1 - r) == p*q - p - p*r;
  }

  lemma NotNegative(p: int, r: int)
    requires p >= 0 && r >= 0
    ensures p*r >= 0
  {}

  function Rotr(x: u32, n: nat): u32
    requires n <= 32
  {
    Rotl(x, 32 - n)
  }

  /** Reversing the half words, as the NEON code rotates by 16 */
  function SwapHalves(x: u32): (r: u32) { 0x1_0000*(x % 0x1_0000) + x / 0x1_0000 }

  lemma SwapIsRotation(x: u32)
    ensures SwapHalves(x) == Rotl(x, 16) == Rotr(x, 16)
  {
    Pow2Half();
  }
}
