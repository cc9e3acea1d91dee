/** The constant-time comparison of tags in library/crypto/monocypher.c */
module Verify16 {
  import opened MachineInts
  import opened Bits
  import opened Words
  import opened Bytes
  import opened Poly1305Spec

  /** Inclusive or of the low n bits */
  function OrBits(a: nat, b: nat, n: nat): (r: nat)
    ensures r < Pow2(n)
  {
    if n == 0 then 0 else 2*OrBits(a / 2, b / 2, n - 1) + (if a % 2 == 1 || b % 2 == 1 then 1 else 0)
  }

  lemma {:induction false} OrIsZero(a: nat, b: nat, n: nat)
    requires a < Pow2(n) && b < Pow2(n)
    ensures OrBits(a, b, n) == 0 <==> a == 0 && b == 0
  {
    if n > 0 { OrIsZero(a / 2, b / 2, n - 1); }
  }

  lemma {:induction false} XorIsZero(a: nat, b: nat, n: nat)
    requires a < Pow2(n) && b < Pow2(n)
    ensures XorBits(a, b, n) == 0 <==> a == b
  {
    if n > 0 {
      XorIsZero(a / 2, b / 2, n - 1);
      hide XorBits;
      XorStep(a, b, n);
      SameHalves(a, b);
    }
  }

  lemma SameHalves(a: nat, b: nat)
    ensures a == b <==> a / 2 == b / 2 && (a + b) % 2 == 0
  {
    var q, r := a / 2, a % 2;
    var q', r' := b / 2, b % 2;
    assert a == 2*q + r && b == 2*q' + r';
    Parity(q + q', r + r');
  }

  lemma Parity(n: int, r: int)
    requires 0 <= r <= 2
    ensures (2*n + r) % 2 == if r == 1 then 1 else 0
  {}

  /** neq0: the borrow of half - 1 tells zero from everything else */
  method NotZero(diff: u64) returns (r: i32)
    ensures r == if diff == 0 then 0 else -1
  {
    Pow2Half();
    var high, low := diff as int / TWO_32, diff as int % TWO_32;
    OrIsZero(high, low, 32);
    hide OrBits, Pow2;
    var half := OrBits(high, low, 32);
    Borrow(half);
    r := (((half - 1) % TWO_64 / TWO_32 % 2) - 1) as i32;
  }

  lemma Borrow(half: int)
    requires 0 <= half < TWO_32
    ensures (half - 1) % TWO_64 / TWO_32 % 2 == if half == 0 then 1 else 0
  {
    if half == 0 {
      assert (half - 1) % TWO_64 == TWO_64 - 1;
    } else {
      assert (half - 1) % TWO_64 == half - 1;
    }
  }

  /** load64_le */
  function Load64(s: seq<byte>, i: nat): int
    requires i + 8 <= |s|
  {
    Load32(s, i) as int + TWO_32*(Load32(s, i + 4) as int)
  }

  /** crypto_verify16: zero exactly when the sixteen bytes agree */
  method Verify(a: seq<byte>, b: seq<byte>) returns (r: i32)
    requires |a| == 16 && |b| == 16
    ensures r == if a == b then 0 else -1
  {
    Pow2Word();
    LoadsDecide(a, b);
    hide XorBits, OrBits, Pow2, Load64;
    var a0, a1, b0, b1 := Load64(a, 0), Load64(a, 8), Load64(b, 0), Load64(b, 8);
    Small(a, 0);
    Small(a, 8);
    Small(b, 0);
    Small(b, 8);
    XorIsZero(a0, b0, 64);
    XorIsZero(a1, b1, 64);
    var x0, x1 := XorBits(a0, b0, 64), XorBits(a1, b1, 64);
    OrIsZero(x0, x1, 64);
    var diff := OrBits(x0, x1, 64);
    r := NotZero(diff as u64);
  }

  lemma Small(s: seq<byte>, i: nat)
    requires i + 8 <= |s|
    ensures 0 <= Load64(s, i) < TWO_64
  {
    hide Load32;
  }

  lemma LoadsDecide(a: seq<byte>, b: seq<byte>)
    requires |a| == 16 && |b| == 16
    ensures a == b <==> Load64(a, 0) == Load64(b, 0) && Load64(a, 8) == Load64(b, 8)
  {
    if Load64(a, 0) == Load64(b, 0) && Load64(a, 8) == Load64(b, 8) {
      HalvesEqual(Load32(a, 0) as int, Load32(a, 4) as int, Load32(b, 0) as int, Load32(b, 4) as int);
      HalvesEqual(Load32(a, 8) as int, Load32(a, 12) as int, Load32(b, 8) as int, Load32(b, 12) as int);
      FourLoads(a);
      FourLoads(b);
      hide Load32, LE;
      LEInjective(a, b);
    }
  }

  lemma HalvesEqual(l: int, h: int, l': int, h': int)
    requires 0 <= l < TWO_32 && 0 <= l' < TWO_32 && l + TWO_32*h == l' + TWO_32*h'
    ensures l == l' && h == h'
  {}
}
