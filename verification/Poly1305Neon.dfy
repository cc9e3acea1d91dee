/**
 The 5 x 26-bit Poly1305 of src/wg_poly1305_neon.c: a streaming context that
 is updated in place, against the specification of section 2.5 of RFC 8439.

 The NEON and the scalar block routine differ only in the instruction that
 forms a 32 x 32 -> 64 bit product; both are modelled by the same products.
 Shifts and masks of disjoint bit fields are written as division, remainder,
 multiplication and sum.
 */
module Poly1305Neon {
  import opened MachineInts
  import opened Bytes
  import opened Modular
  import opened Poly1305Spec
  import opened PolyLimbs

  // Splitting 16 bytes into 26-bit limbs.

  /** The limbs that wg_poly1305_init and poly1305_block cut out of four words */
  function Cut(d: seq<byte>): (f: Limbs)
    requires |d| == 16
    ensures 0 <= f.h0 < 0x400_0000 && 0 <= f.h1 < 0x400_0000 && 0 <= f.h2 < 0x400_0000
    ensures 0 <= f.h3 < 0x400_0000 && 0 <= f.h4 < 0x100_0000
  {
    var t0, t1, t2, t3 := Load32(d, 0) as int, Load32(d, 4) as int, Load32(d, 8) as int, Load32(d, 12) as int;
    Limbs(t0 % 0x400_0000,
          t0 / 0x400_0000 + t1 % 0x10_0000 * 0x40,
          t1 / 0x10_0000 + t2 % 0x4000 * 0x1000,
          t2 / 0x4000 + t3 % 0x100 * 0x4_0000,
          t3 / 0x100)
  }

  method CutWords(d: seq<byte>) returns (b0: u32, b1: u32, b2: u32, b3: u32, b4: u32)
    requires |d| == 16
    ensures Limbs(b0 as int, b1 as int, b2 as int, b3 as int, b4 as int) == Cut(d)
  {
    var t0, t1, t2, t3 := Load32(d, 0), Load32(d, 4), Load32(d, 8), Load32(d, 12);
    b0 := t0 % 0x400_0000;
    b1 := t0 / 0x400_0000 + t1 % 0x10_0000 * 0x40;
    b2 := t1 / 0x10_0000 + t2 % 0x4000 * 0x1000;
    b3 := t2 / 0x4000 + t3 % 0x100 * 0x4_0000;
    b4 := t3 / 0x100;
  }

  lemma CutVal(d: seq<byte>)
    requires |d| == 16
    ensures Val(Cut(d)) == LE(d)
  {
    hide LE, Load32;
    FourLoads(d);
  }

  lemma AddBlock(a: Limbs, d: seq<byte>, hibit: int)
    requires |d| == 16
    ensures var b := Cut(d);
            Val(Limbs(a.h0 + b.h0, a.h1 + b.h1, a.h2 + b.h2, a.h3 + b.h3, a.h4 + (b.h4 + hibit * 0x100_0000)))
            == Val(a) + (LE(d) + hibit * TWO_128)
  {
    hide Cut, LE;
    CutVal(d);
  }

  // One block.

  /** 32 x 32 -> 64 bit multiply and accumulate: one row of the block product */
  method Dot5(a0: u32, b0: u32, a1: u32, b1: u32, a2: u32, b2: u32, a3: u32, b3: u32, a4: u32, b4: u32)
    returns (t: u64)
    requires a0 < 0x1000_0000 && a1 < 0x1000_0000 && a2 < 0x1000_0000 && a3 < 0x1000_0000 && a4 < 0x1000_0000
    requires b0 < 0x2000_0000 && b1 < 0x2000_0000 && b2 < 0x2000_0000 && b3 < 0x2000_0000 && b4 < 0x2000_0000
    ensures t as int == a0 as int * b0 as int + a1 as int * b1 as int + a2 as int * b2 as int
                        + a3 as int * b3 as int + a4 as int * b4 as int
    ensures t < 0x1000_0000_0000_0000
  {
    var p0 := Prod(a0, b0);
    var p1 := Prod(a1, b1);
    var p2 := Prod(a2, b2);
    var p3 := Prod(a3, b3);
    var p4 := Prod(a4, b4);
    t := p0 + p1 + p2 + p3 + p4;
  }

  method Prod(a: u32, b: u32) returns (t: u64)
    requires a < 0x1000_0000 && b < 0x2000_0000
    ensures t as int == a as int * b as int && t < 0x200_0000_0000_0000
  {
    Below(a as int, b as int, 0x1000_0000, 0x2000_0000);
    t := a as u64 * b as u64;
  }

  lemma Below(a: int, b: int, m: int, n: int)
    requires 0 <= a < m && 0 <= b < n
    ensures 0 <= a * b < m * n
  {
    assert a * (n - b) >= 0 && (m - a) * n > 0;
    assert a * (n - b) == a * n - a * b && (m - a) * n == m * n - a * n;
  }

  /** c = h >> 26 and h & 0x3ffffff */
  method Split26(h: u64) returns (low: u64, c: u64)
    ensures h as int == low as int + 0x400_0000 * c as int
    ensures low < 0x400_0000
  {
    c := h / 0x400_0000;
    low := h % 0x400_0000;
  }

  /** The carry chain at the end of a block */
  method Carry(s0: u64, s1: u64, s2: u64, s3: u64, s4: u64)
    returns (h0: u64, h1: u64, h2: u64, h3: u64, h4: u64, ghost top: int)
    requires s0 < 0x1000_0000_0000_0000 && s1 < 0x1000_0000_0000_0000 && s2 < 0x1000_0000_0000_0000
    requires s3 < 0x1000_0000_0000_0000 && s4 < 0x1000_0000_0000_0000
    ensures h0 < 0x400_0000 && h1 < 0x400_0800 && h2 < 0x400_0000 && h3 < 0x400_0000 && h4 < 0x400_0000
    ensures Val(Limbs(s0 as int, s1 as int, s2 as int, s3 as int, s4 as int))
         == Val(Limbs(h0 as int, h1 as int, h2 as int, h3 as int, h4 as int)) + Q*top
  {
    var c;
    h0, c := Split26(s0); h1 := s1 + c;
    h1, c := Split26(h1); h2 := s2 + c;
    h2, c := Split26(h2); h3 := s3 + c;
    h3, c := Split26(h3); h4 := s4 + c;
    h4, c := Split26(h4); h0 := h0 + c * 5;
    top := c as int;
    h0, c := Split26(h0); h1 := h1 + c;
  }

  /** (acc + block) * r with carried limbs */
  method Multiply(a0: u64, a1: u64, a2: u64, a3: u64, a4: u64, r0: u32, r1: u32, r2: u32, r3: u32, r4: u32)
    returns (h0: u32, h1: u32, h2: u32, h3: u32, h4: u32, ghost q: int)
    requires a0 < 0x1000_0000 && a1 < 0x1000_0000 && a2 < 0x1000_0000 && a3 < 0x1000_0000 && a4 < 0x1000_0000
    requires r0 < 0x400_0000 && r1 < 0x400_0000 && r2 < 0x400_0000 && r3 < 0x400_0000 && r4 < 0x400_0000
    ensures h0 < 0x400_0000 && h1 < 0x400_0800 && h2 < 0x400_0000 && h3 < 0x400_0000 && h4 < 0x400_0000
    ensures Val(Limbs(a0 as int, a1 as int, a2 as int, a3 as int, a4 as int))
            * Val(Limbs(r0 as int, r1 as int, r2 as int, r3 as int, r4 as int))
         == Val(Limbs(h0 as int, h1 as int, h2 as int, h3 as int, h4 as int)) + Q*q
  {
    hide Val;
    var s1, s2, s3, s4 := r1 * 5, r2 * 5, r3 * 5, r4 * 5;
    var d0 := Dot5(a0 as u32, r0, a1 as u32, s4, a2 as u32, s3, a3 as u32, s2, a4 as u32, s1);
    var d1 := Dot5(a0 as u32, r1, a1 as u32, r0, a2 as u32, s4, a3 as u32, s3, a4 as u32, s2);
    var d2 := Dot5(a0 as u32, r2, a1 as u32, r1, a2 as u32, r0, a3 as u32, s4, a4 as u32, s3);
    var d3 := Dot5(a0 as u32, r3, a1 as u32, r2, a2 as u32, r1, a3 as u32, r0, a4 as u32, s4);
    var d4 := Dot5(a0 as u32, r4, a1 as u32, r3, a2 as u32, r2, a3 as u32, r1, a4 as u32, r0);
    ghost var a := Limbs(a0 as int, a1 as int, a2 as int, a3 as int, a4 as int);
    ghost var r := Limbs(r0 as int, r1 as int, r2 as int, r3 as int, r4 as int);
    assert Limbs(d0 as int, d1 as int, d2 as int, d3 as int, d4 as int) == Rows(a, r);
    q := RowsVal(a, r);
    var e0, e1, e2, e3, e4;
    ghost var top;
    e0, e1, e2, e3, e4, top := Carry(d0, d1, d2, d3, d4);
    h0, h1, h2, h3, h4 := e0 as u32, e1 as u32, e2 as u32, e3 as u32, e4 as u32;
    q := q + top;
  }

  // The final reduction and the addition of s.

  /** Bring the five limbs below 2^26 */
  method FullCarry(a0: u32, a1: u32, a2: u32, a3: u32, a4: u32)
    returns (h0: u32, h1: u32, h2: u32, h3: u32, h4: u32, ghost top: int)
    requires a0 < 0x400_0000 && a1 < 0x400_0800 && a2 < 0x400_0000 && a3 < 0x400_0000 && a4 < 0x400_0000
    ensures h0 < 0x400_0000 && h1 < 0x400_0000 && h2 < 0x400_0000 && h3 < 0x400_0000 && h4 < 0x400_0000
    ensures Val(Limbs(a0 as int, a1 as int, a2 as int, a3 as int, a4 as int))
         == Val(Limbs(h0 as int, h1 as int, h2 as int, h3 as int, h4 as int)) + Q*top
  {
    h0, h1, h2, h3, h4 := a0, a1, a2, a3, a4;
    var c := h1 / 0x400_0000; h1 := h1 % 0x400_0000; h2 := h2 + c;
    c := h2 / 0x400_0000; h2 := h2 % 0x400_0000; h3 := h3 + c;
    c := h3 / 0x400_0000; h3 := h3 % 0x400_0000; h4 := h4 + c;
    c := h4 / 0x400_0000; h4 := h4 % 0x400_0000; h0 := h0 + c * 5;
    top := c as int;
    c := h0 / 0x400_0000; h0 := h0 % 0x400_0000; h1 := h1 + c;
  }

  /** (h & ~mask) | (g & mask), for the two masks that occur: all ones and zero */
  function Select(mask: u32, g: u32, h: u32): u32 {
    if mask == 0xffff_ffff then g else h
  }

  /** h + 5 on the low four limbs, with the carry out of them */
  method AddFive(h0: u32, h1: u32, h2: u32, h3: u32) returns (g0: u32, g1: u32, g2: u32, g3: u32, c: u32)
    requires h0 < 0x400_0000 && h1 < 0x400_0000 && h2 < 0x400_0000 && h3 < 0x400_0000
    ensures g0 < 0x400_0000 && g1 < 0x400_0000 && g2 < 0x400_0000 && g3 < 0x400_0000 && c <= 1
    ensures Val(Limbs(g0 as int, g1 as int, g2 as int, g3 as int, c as int))
         == Val(Limbs(h0 as int, h1 as int, h2 as int, h3 as int, 0)) + 5
  {
    g0 := h0 + 5; c := g0 / 0x400_0000; g0 := g0 % 0x400_0000;
    g1 := h1 + c; c := g1 / 0x400_0000; g1 := g1 % 0x400_0000;
    g2 := h2 + c; c := g2 / 0x400_0000; g2 := g2 % 0x400_0000;
    g3 := h3 + c; c := g3 / 0x400_0000; g3 := g3 % 0x400_0000;
  }

  /** g4 = h4 + c - 2^26 and mask = (g4 >> 31) - 1, both in 32 bits */
  method Mask(h4: u32, c: u32) returns (g4: u32, mask: u32)
    requires h4 < 0x400_0000 && c <= 1
    ensures mask == if h4 + c == 0x400_0000 then 0xffff_ffff else 0
    ensures h4 + c == 0x400_0000 ==> g4 == 0
  {
    g4 := ((h4 as int + c as int - 0x400_0000) % 0x1_0000_0000) as u32;
    mask := ((g4 as int / 0x8000_0000 - 1) % 0x1_0000_0000) as u32;
  }

  /** The masked subtraction: it fires exactly when the value is at least 2^130 - 5. */
  method Subtract(h0: u32, h1: u32, h2: u32, h3: u32, h4: u32)
    returns (k0: u32, k1: u32, k2: u32, k3: u32, k4: u32)
    requires h0 < 0x400_0000 && h1 < 0x400_0000 && h2 < 0x400_0000 && h3 < 0x400_0000 && h4 < 0x400_0000
    ensures k0 < 0x400_0000 && k1 < 0x400_0000 && k2 < 0x400_0000 && k3 < 0x400_0000 && k4 < 0x400_0000
    ensures var v := Val(Limbs(h0 as int, h1 as int, h2 as int, h3 as int, h4 as int));
            Val(Limbs(k0 as int, k1 as int, k2 as int, k3 as int, k4 as int)) == if v >= Q then v - Q else v
  {
    var g0, g1, g2, g3, c := AddFive(h0, h1, h2, h3);
    var g4, mask := Mask(h4, c);
    k0, k1, k2 := Select(mask, g0, h0), Select(mask, g1, h1), Select(mask, g2, h2);
    k3, k4 := Select(mask, g3, h3), Select(mask, g4, h4);
  }

  /** Repack into 32-bit words, add s, and keep the low 128 bits */
  method AddPad(h0: u32, h1: u32, h2: u32, h3: u32, h4: u32, s0: u32, s1: u32, s2: u32, s3: u32)
    returns (f0: u32, f1: u32, f2: u32, f3: u32, ghost top: int)
    requires h0 < 0x400_0000 && h1 < 0x400_0000 && h2 < 0x400_0000 && h3 < 0x400_0000 && h4 < 0x400_0000
    ensures f0 as int + 0x1_0000_0000*(f1 as int) + 0x1_0000_0000_0000_0000*(f2 as int)
            + 0x1_0000_0000_0000_0000_0000_0000*(f3 as int) + TWO_128*top
         == Val(Limbs(h0 as int, h1 as int, h2 as int, h3 as int, h4 as int))
            + s0 as int + 0x1_0000_0000*(s1 as int) + 0x1_0000_0000_0000_0000*(s2 as int)
            + 0x1_0000_0000_0000_0000_0000_0000*(s3 as int)
  {
    var t0 := h0 as u64 + h1 as u64 * 0x400_0000 + s0 as u64;
    var t1 := h2 as u64 * 0x10_0000 + s1 as u64;
    var t2 := h3 as u64 * 0x4000 + s2 as u64;
    var t3 := h4 as u64 * 0x100 + s3 as u64;
    t1 := t1 + t0 / 0x1_0000_0000;
    t2 := t2 + t1 / 0x1_0000_0000;
    t3 := t3 + t2 / 0x1_0000_0000;
    f0, f1 := (t0 % 0x1_0000_0000) as u32, (t1 % 0x1_0000_0000) as u32;
    f2, f3 := (t2 % 0x1_0000_0000) as u32, (t3 % 0x1_0000_0000) as u32;
    top := t3 as int / 0x1_0000_0000;
  }

  /** After the carry the value is below 2^130, so one conditional subtraction reduces it. */
  lemma Reduces(a: int, v: int, top: int, h: Limbs)
    requires a == v + Q*top && v == Val(h)
    requires 0 <= h.h0 < 0x400_0000 && 0 <= h.h1 < 0x400_0000 && 0 <= h.h2 < 0x400_0000
    requires 0 <= h.h3 < 0x400_0000 && 0 <= h.h4 < 0x400_0000
    ensures a % Q == if v >= Q then v - Q else v
  {
    if v >= Q {
      ModUnique(a, v - Q, top + 1, Q);
    } else {
      ModUnique(a, v, top, Q);
    }
  }

  /** The reduced accumulator plus s, modulo 2^128, as sixteen bytes */
  method Finish(a0: u32, a1: u32, a2: u32, a3: u32, a4: u32, s0: u32, s1: u32, s2: u32, s3: u32)
    returns (tag: seq<byte>)
    requires a0 < 0x400_0000 && a1 < 0x400_0800 && a2 < 0x400_0000 && a3 < 0x400_0000 && a4 < 0x400_0000
    ensures |tag| == 16
    ensures LE(tag) == (Val(Limbs(a0 as int, a1 as int, a2 as int, a3 as int, a4 as int)) % Q
                        + (s0 as int + 0x1_0000_0000*(s1 as int) + 0x1_0000_0000_0000_0000*(s2 as int)
                           + 0x1_0000_0000_0000_0000_0000_0000*(s3 as int))) % TWO_128
  {
    hide LE, Val, WordsVal, Store32All;
    var h0, h1, h2, h3, h4;
    ghost var top;
    h0, h1, h2, h3, h4, top := FullCarry(a0, a1, a2, a3, a4);
    var k0, k1, k2, k3, k4 := Subtract(h0, h1, h2, h3, h4);
    ghost var a := Val(Limbs(a0 as int, a1 as int, a2 as int, a3 as int, a4 as int));
    ghost var h := Limbs(h0 as int, h1 as int, h2 as int, h3 as int, h4 as int);
    Reduces(a, Val(h), top, h);
    var f0, f1, f2, f3;
    ghost var over;
    f0, f1, f2, f3, over := AddPad(k0, k1, k2, k3, k4, s0, s1, s2, s3);
    tag := Store32All([f0, f1, f2, f3]);
    Store32AllLE([f0, f1, f2, f3]);
    FourWords(f0, f1, f2, f3);
    TagBytes(LE(tag) + TWO_128*over, tag, over);
  }

  class Poly1305 {
    var r0: u32
    var r1: u32
    var r2: u32
    var r3: u32
    var r4: u32
    var s0: u32
    var s1: u32
    var s2: u32
    var s3: u32
    var acc0: u32
    var acc1: u32
    var acc2: u32
    var acc3: u32
    var acc4: u32
    const buf: array<byte>
    var bufLen: nat

    /** The key and the bytes given to update so far */
    ghost var key: seq<byte>
    ghost var msg: seq<byte>

    ghost function RLimbs(): Limbs
      reads this
    {
      Limbs(r0 as int, r1 as int, r2 as int, r3 as int, r4 as int)
    }

    ghost function AccLimbs(): Limbs
      reads this
    {
      Limbs(acc0 as int, acc1 as int, acc2 as int, acc3 as int, acc4 as int)
    }

    ghost predicate KeyLoaded()
      reads this
    {
      && |key| == 32
      && r0 < 0x400_0000 && r1 < 0x400_0000 && r2 < 0x400_0000 && r3 < 0x400_0000 && r4 < 0x400_0000
      && Val(RLimbs()) == R(key)
      && s0 == Load32(key, 16) && s1 == Load32(key, 20) && s2 == Load32(key, 24) && s3 == Load32(key, 28)
    }

    ghost predicate AccBounded()
      reads this
    {
      acc0 < 0x400_0000 && acc1 < 0x400_0800 && acc2 < 0x400_0000 && acc3 < 0x400_0000 && acc4 < 0x400_0000
    }

    /** The accumulator holds the whole blocks of the message; the buffer holds the rest. */
    ghost predicate Valid()
      reads this, buf
    {
      && KeyLoaded() && AccBounded()
      && buf.Length == 16 && bufLen < 16 && bufLen <= |msg|
      && (|msg| - bufLen) % 16 == 0
      && Val(AccLimbs()) % Q == Acc(R(key), msg[..|msg| - bufLen])
      && buf[..bufLen] == msg[|msg| - bufLen..]
    }

    constructor (k: seq<byte>)
      requires |k| == 32
      ensures Valid() && key == k && msg == [] && fresh(buf)
    {
      hide Cut, Val, LE, Clamped, Load32;
      var d := Clamped(k);
      buf := new byte[16];
      var b0, b1, b2, b3, b4 := CutWords(d);
      r0, r1, r2, r3, r4 := b0, b1, b2, b3, b4;
      s0, s1, s2, s3 := Load32(k, 16), Load32(k, 20), Load32(k, 24), Load32(k, 28);
      acc0, acc1, acc2, acc3, acc4 := 0, 0, 0, 0, 0;
      bufLen := 0;
      key, msg := k, [];
      new;
      CutVal(d);
      ZeroVal(AccLimbs());
    }

    /** acc = (acc + block) * r modulo 2^130 - 5, with the block's top bit given by hibit */
    method Block(data: seq<byte>, hibit: u32)
      requires |data| == 16 && hibit <= 1 && KeyLoaded() && AccBounded()
      modifies this`acc0, this`acc1, this`acc2, this`acc3, this`acc4
      ensures AccBounded()
      ensures Val(AccLimbs()) % Q
           == ((old(Val(AccLimbs())) % Q + LE(data) + hibit as int * TWO_128) * R(key)) % Q
    {
      hide Cut, Val, LE, Load32, R;
      var b0, b1, b2, b3, b4 := CutWords(data);
      var a0, a1, a2 := acc0 as u64 + b0 as u64, acc1 as u64 + b1 as u64, acc2 as u64 + b2 as u64;
      var a3, a4 := acc3 as u64 + b3 as u64, acc4 as u64 + (b4 + hibit * 0x100_0000) as u64;
      ghost var v, block := Val(AccLimbs()), LE(data) + hibit as int * TWO_128;
      AddBlock(AccLimbs(), data, hibit as int);
      var h0, h1, h2, h3, h4;
      ghost var q;
      h0, h1, h2, h3, h4, q := Multiply(a0, a1, a2, a3, a4, r0, r1, r2, r3, r4);
      acc0, acc1, acc2, acc3, acc4 := h0, h1, h2, h3, h4;
      AbsorbCongruent(v, block, R(key), Val(AccLimbs()), q);
    }
  
    /** Feed one whole block straight from the input */
    method FeedBlock(data: seq<byte>)
      requires |data| == 16 && Valid() && bufLen == 0
      modifies this`acc0, this`acc1, this`acc2, this`acc3, this`acc4, this`msg
      ensures Valid() && msg == old(msg) + data
    {
      hide LE, R, Val, Acc, Load32;
      assert msg[..|msg|] == msg;
      FullBlock(R(key), msg, data);
      Block(data, 1);
      msg := msg + data;
      assert msg[..|msg|] == msg;
    }

    /** Keep bytes that do not complete a block in the buffer */
    method Stash(data: seq<byte>)
      requires Valid() && bufLen + |data| < 16
      modifies this`bufLen, this`msg, buf
      ensures Valid() && bufLen == old(bufLen) + |data| && msg == old(msg) + data
    {
      hide LE, R, Val, Acc, Load32;
      CopyInto(buf, bufLen, data);
      ghost var whole := msg[..|msg| - bufLen];
      bufLen := bufLen + |data|;
      msg := msg + data;
      assert msg[..|msg| - bufLen] == whole;
      assert msg[|msg| - bufLen..] == buf[..bufLen];
    }

    /** Complete the buffered block and feed it */
    method TopUp(data: seq<byte>)
      requires Valid() && 0 < bufLen && |data| == 16 - bufLen
      modifies this, buf
      ensures Valid() && bufLen == 0 && key == old(key) && msg == old(msg) + data
    {
      hide LE, R, Val, Acc, Load32;
      CopyInto(buf, bufLen, data);
      ghost var whole, rest := msg[..|msg| - bufLen], msg[|msg| - bufLen..];
      assert msg == whole + rest;
      assert buf[..] == rest + data;
      msg, bufLen := whole, 0;
      assert msg[..|msg|] == msg && buf[..0] == [];
      FeedBlock(buf[..]);
      assert whole + (rest + data) == (whole + rest) + data;
    }

    /** wg_poly1305_update: any split of the message into updates is the message itself. */
    method Update(data: seq<byte>)
      requires Valid()
      modifies this, buf
      ensures Valid() && key == old(key) && msg == old(msg) + data
    {
      hide Valid;
      var at := 0;
      if bufLen > 0 {
        Bounds();
        var want := 16 - bufLen;
        if |data| < want {
          Stash(data);
          return;
        }
        TopUp(data[..want]);
        at := want;
      }
      while |data| - at >= 16
        invariant at <= |data|
        invariant Valid() && bufLen == 0 && key == old(key) && msg == old(msg) + data[..at]
      {
        FeedBlock(data[at..at + 16]);
        assert data[..at] + data[at..at + 16] == data[..at + 16];
        at := at + 16;
      }
      assert data == data[..at] + data[at..];
      if |data| - at > 0 {
        Stash(data[at..]);
      }
    }

    lemma Bounds()
      requires Valid()
      ensures bufLen < 16
    {}
  
    /** Absorb a short last block, if any: afterwards the accumulator holds the whole message */
    method Pad()
      requires Valid()
      modifies this, buf
      ensures KeyLoaded() && AccBounded() && key == old(key)
      ensures Val(AccLimbs()) % Q == Acc(R(key), old(msg))
    {
      hide LE, R, Val, Load32, Acc, Pow256;
      assert msg == msg[..|msg| - bufLen] + msg[|msg| - bufLen..];
      if bufLen > 0 {
        ghost var rest := buf[..bufLen];
        CopyInto(buf, bufLen, [1] + Zeros(15 - bufLen));
        assert buf[..] == rest + [1] + Zeros(15 - |rest|);
        PaddedBlock(rest);
        AccAppend(R(key), msg[..|msg| - bufLen], rest);
        PaddedAbsorb(R(key), Val(AccLimbs()) % Q, rest, buf[..]);
        Block(buf[..], 0);
      } else {
        assert msg[..|msg| - bufLen] == msg;
      }
    }

    /** wg_poly1305_final: the tag of all bytes given to update; the context is wiped */
    method Final() returns (tag: seq<byte>)
      requires Valid()
      modifies this, buf
      ensures IsTag(old(key), old(msg), tag)
    {
      hide LE, R, Val, Load32, Acc, Pow256;
      ghost var k := key;
      Pad();
      tag := Finish(acc0, acc1, acc2, acc3, acc4, s0, s1, s2, s3);
      PadValue(k);
      r0, r1, r2, r3, r4 := 0, 0, 0, 0, 0;
      s0, s1, s2, s3 := 0, 0, 0, 0;
      acc0, acc1, acc2, acc3, acc4 := 0, 0, 0, 0, 0;
      bufLen := 0;
      key, msg := [], [];
    }
  }

  /** wg_poly1305: the one-shot authenticator */
  method Tag(data: seq<byte>, key: seq<byte>) returns (tag: seq<byte>)
    requires |key| == 32
    ensures IsTag(key, data, tag)
  {
    var ctx := new Poly1305(key);
    ctx.Update(data);
    assert ctx.msg == data;
    tag := ctx.Final();
  }
}
