/** The one-time authenticator of section 2.5 of RFC 8439, as a function of key and message. */
module Poly1305Spec {
  import opened MachineInts
  import opened Bytes
  import opened Modular

  /** The prime 2^130 - 5 */
  const Q: int := 0x3_ffff_ffff_ffff_ffff_ffff_ffff_ffff_fffb
  const TWO_128: int := 0x1_0000_0000_0000_0000_0000_0000_0000_0000

  /** The first half of the key with the bits cleared that section 2.5 of RFC 8439 clears */
  function Clamped(k: seq<byte>): (c: seq<byte>)
    requires |k| == 32
    ensures |c| == 16
  {
    [k[0], k[1], k[2], k[3] % 16,
     k[4] - k[4] % 4, k[5], k[6], k[7] % 16,
     k[8] - k[8] % 4, k[9], k[10], k[11] % 16,
     k[12] - k[12] % 4, k[13], k[14], k[15] % 16]
  }

  ghost function R(k: seq<byte>): int
    requires |k| == 32
  {
    LE(Clamped(k))
  }

  /** One block of 1 to 16 bytes, with its appended 1 byte, into the accumulator */
  ghost function Absorb(r: int, acc: int, block: seq<byte>): int {
    ((acc + LE(block) + Pow256(|block|)) * r) % Q
  }

  /** The accumulator after all blocks of a message */
  ghost function Acc(r: int, msg: seq<byte>): int {
    if msg == [] then 0
    else
      var n := (|msg| - 1) / 16 * 16;
      Absorb(r, Acc(r, msg[..n]), msg[n..])
  }

  lemma AccAppend(r: int, msg: seq<byte>, block: seq<byte>)
    requires |msg| % 16 == 0 && 1 <= |block| <= 16
    ensures Acc(r, msg + block) == Absorb(r, Acc(r, msg), block)
  {
    assert (|msg + block| - 1) / 16 * 16 == |msg|;
    assert (msg + block)[..|msg|] == msg && (msg + block)[|msg|..] == block;
  }

  /** The tag as a number */
  ghost function TagValue(k: seq<byte>, msg: seq<byte>): int
    requires |k| == 32
  {
    (Acc(R(k), msg) + LE(k[16..])) % TWO_128
  }

  ghost predicate IsTag(k: seq<byte>, msg: seq<byte>, tag: seq<byte>)
    requires |k| == 32
  {
    |tag| == 16 && LE(tag) == TagValue(k, msg)
  }

  /** The tag bytes are determined by key and message. */
  lemma TagUnique(k: seq<byte>, msg: seq<byte>, t: seq<byte>, u: seq<byte>)
    requires |k| == 32 && IsTag(k, msg, t) && IsTag(k, msg, u)
    ensures t == u
  {
    LEInjective(t, u);
  }

  function Zeros(n: nat): (z: seq<byte>)
    ensures |z| == n && forall i | 0 <= i < n :: z[i] == 0
  {
    seq(n, i => 0)
  }

  lemma {:induction false} ZerosLE(n: nat)
    ensures LE(Zeros(n)) == 0
  {
    if n > 0 {
      assert Zeros(n)[1..] == Zeros(n - 1);
      ZerosLE(n - 1);
    }
  }

  lemma OneAndZerosLE(n: nat)
    ensures LE([1] + Zeros(n)) == 1
  {
    assert ([1] + Zeros(n))[1..] == Zeros(n);
    ZerosLE(n);
  }

  /** A short last block, padded with 1 and zeros, is the number that the specification absorbs. */
  lemma PaddedBlock(block: seq<byte>)
    requires |block| < 16
    ensures LE(block + [1] + Zeros(15 - |block|)) == LE(block) + Pow256(|block|)
  {
    hide LE, Pow256, Zeros;
    var z := Zeros(15 - |block|);
    assert block + [1] + z == block + ([1] + z);
    LEConcat(block, [1] + z);
    OneAndZerosLE(15 - |block|);
  }

  lemma Pow256Block()
    ensures Pow256(16) == TWO_128
  {
    assert Pow256(4) == 0x100*Pow256(3) == 0x1_0000*Pow256(2) == 0x1_0000_0000;
    assert Pow256(8) == 0x100*Pow256(7) == 0x1_0000*Pow256(6) == 0x100_0000*Pow256(5) == 0x1_0000_0000*Pow256(4);
    assert Pow256(12) == 0x100*Pow256(11) == 0x1_0000*Pow256(10) == 0x100_0000*Pow256(9) == 0x1_0000_0000*Pow256(8);
    assert Pow256(16) == 0x100*Pow256(15) == 0x1_0000*Pow256(14) == 0x100_0000*Pow256(13) == 0x1_0000_0000*Pow256(12);
  }

  /** A full block with its appended 1 bit at 2^128 is the specification's next block. */
  lemma FullBlock(r: int, msg: seq<byte>, block: seq<byte>)
    requires |block| == 16 && |msg| % 16 == 0
    ensures ((Acc(r, msg) + LE(block) + 1 * TWO_128) * r) % Q == Acc(r, msg + block)
  {
    hide LE, Acc;
    AccAppend(r, msg, block);
    Pow256Block();
  }

  lemma PaddedAbsorb(r: int, acc: int, rest: seq<byte>, padded: seq<byte>)
    requires LE(padded) == LE(rest) + Pow256(|rest|)
    ensures ((acc + LE(padded) + 0 * TWO_128) * r) % Q == Absorb(r, acc, rest)
  {}

  /** Absorbing into a representative of the accumulator gives a representative of the result. */
  lemma AbsorbCongruent(v: int, b: int, r: int, w: int, q: int)
    requires (v + b) * r == w + Q*q
    ensures w % Q == ((v % Q + b) * r) % Q
  {
    var x := v % Q + b;
    assert v + b == x + Q*(v / Q);
    assert (v + b) * r == x * r + Q*((v / Q) * r) by {
      assert (x + Q*(v / Q)) * r == x * r + (Q*(v / Q)) * r;
    }
    ModShift(w, x * r, (v / Q) * r - q, Q);
  }

  lemma FourLoads(d: seq<byte>)
    requires |d| == 16
    ensures LE(d) == Load32(d, 0) as int + 0x1_0000_0000 * Load32(d, 4) as int
                     + 0x1_0000_0000_0000_0000 * Load32(d, 8) as int
                     + 0x1_0000_0000_0000_0000_0000_0000 * Load32(d, 12) as int
  {
    assert d[0..] == d && d[16..] == [];
    Load32LE(d, 0);
    Load32LE(d, 4);
    Load32LE(d, 8);
    Load32LE(d, 12);
  }

  lemma PadValue(k: seq<byte>)
    requires |k| == 32
    ensures LE(k[16..]) == Load32(k, 16) as int + 0x1_0000_0000 * Load32(k, 20) as int
                           + 0x1_0000_0000_0000_0000 * Load32(k, 24) as int
                           + 0x1_0000_0000_0000_0000_0000_0000 * Load32(k, 28) as int
  {
    FourLoads(k[16..]);
  }

  lemma TagBytes(x: int, tag: seq<byte>, over: int)
    requires |tag| == 16 && LE(tag) + TWO_128*over == x
    ensures LE(tag) == x % TWO_128
  {
    hide LE, Pow256;
    LEBound(tag);
    Pow256Block();
    ModUnique(x, LE(tag), over, TWO_128);
  }
}
