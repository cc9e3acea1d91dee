/**
 Monocypher's Poly1305 on 32-bit limbs (library/crypto/monocypher.c): the
 reference implementation, against the same specification as the 26-bit one.

 Loops of constant trip count over the words of a number are unrolled.
 */
module Poly1305Mono {
  import opened MachineInts
  import opened Bytes
  import opened Modular
  import opened Poly1305Spec

  /** Four 32-bit limbs and an excess limb of weight 2^128 */
  datatype Words = Words(h0: int, h1: int, h2: int, h3: int, h4: int)

  function Val(f: Words): int {
    f.h0 + 0x1_0000_0000*f.h1 + 0x1_0000_0000_0000_0000*f.h2
    + 0x1_0000_0000_0000_0000_0000_0000*f.h3 + TWO_128*f.h4
  }

  // The products of poly_blocks, one column per limb of r.  The limbs r1, r2
  // and r3 are multiples of 4, so 2^128 * 4q comes back as 5q; r0 = 4q + e
  // leaves e behind in the excess limb.

  function Column0(s: Words, q: int, e: int): Words {
    Words(s.h0*(4*q + e) + s.h4*(5*q), s.h1*(4*q + e), s.h2*(4*q + e), s.h3*(4*q + e), s.h4*e)
  }

  function Column1(s: Words, q: int): Words {
    Words(s.h3*(5*q), s.h0*(4*q) + s.h4*(5*q), s.h1*(4*q), s.h2*(4*q), 0)
  }

  function Column2(s: Words, q: int): Words {
    Words(s.h2*(5*q), s.h3*(5*q), s.h0*(4*q) + s.h4*(5*q), s.h1*(4*q), 0)
  }

  function Column3(s: Words, q: int): Words {
    Words(s.h1*(5*q), s.h2*(5*q), s.h3*(5*q), s.h0*(4*q) + s.h4*(5*q), 0)
  }

  lemma Column0Val(s: Words, q: int, e: int) returns (k: int)
    ensures Val(s)*(4*q + e) == Val(Column0(s, q, e)) + Q*k
  {
    k := s.h4*q;
  }

  lemma Column1Val(s: Words, q: int) returns (k: int)
    ensures Val(s)*(0x1_0000_0000*(4*q)) == Val(Column1(s, q)) + Q*k
  {
    k := s.h3*q + 0x1_0000_0000*(s.h4*q);
  }

  lemma Column2Val(s: Words, q: int) returns (k: int)
    ensures Val(s)*(0x1_0000_0000_0000_0000*(4*q)) == Val(Column2(s, q)) + Q*k
  {
    k := s.h2*q + 0x1_0000_0000*(s.h3*q) + 0x1_0000_0000_0000_0000*(s.h4*q);
  }

  lemma Column3Val(s: Words, q: int) returns (k: int)
    ensures Val(s)*(0x1_0000_0000_0000_0000_0000_0000*(4*q)) == Val(Column3(s, q)) + Q*k
  {
    k := s.h1*q + 0x1_0000_0000*(s.h2*q) + 0x1_0000_0000_0000_0000*(s.h3*q)
         + 0x1_0000_0000_0000_0000_0000_0000*(s.h4*q);
  }

  function Sum(a: Words, b: Words, c: Words, d: Words): Words {
    Words(a.h0 + b.h0 + c.h0 + d.h0, a.h1 + b.h1 + c.h1 + d.h1, a.h2 + b.h2 + c.h2 + d.h2,
          a.h3 + b.h3 + c.h3 + d.h3, a.h4 + b.h4 + c.h4 + d.h4)
  }

  lemma SumVal(a: Words, b: Words, c: Words, d: Words)
    ensures Val(Sum(a, b, c, d)) == Val(a) + Val(b) + Val(c) + Val(d)
  {}

  lemma Distribute(v: int, e: int, q0: int, q1: int, q2: int, q3: int)
    ensures v*Val(Words(4*q0 + e, 4*q1, 4*q2, 4*q3, 0))
         == v*(4*q0 + e) + v*(0x1_0000_0000*(4*q1)) + v*(0x1_0000_0000_0000_0000*(4*q2))
            + v*(0x1_0000_0000_0000_0000_0000_0000*(4*q3))
  {}

  /** The columns together represent the product modulo 2^130 - 5. */
  lemma ColumnsVal(s: Words, e: int, q0: int, q1: int, q2: int, q3: int) returns (k: int)
    ensures Val(s)*Val(Words(4*q0 + e, 4*q1, 4*q2, 4*q3, 0))
         == Val(Sum(Column0(s, q0, e), Column1(s, q1), Column2(s, q2), Column3(s, q3))) + Q*k
  {
    hide Val, Sum, Column0, Column1, Column2, Column3;
    var k0 := Column0Val(s, q0, e);
    var k1 := Column1Val(s, q1);
    var k2 := Column2Val(s, q2);
    var k3 := Column3Val(s, q3);
    SumVal(Column0(s, q0, e), Column1(s, q1), Column2(s, q2), Column3(s, q3));
    Distribute(Val(s), e, q0, q1, q2, q3);
    k := k0 + k1 + k2 + k3;
  }

  /** The five sums of poly_blocks */
  function Rows(s: Words, r: Words, rr: Words): Words {
    Words(s.h0*r.h0 + s.h1*rr.h3 + s.h2*rr.h2 + s.h3*rr.h1 + s.h4*rr.h0,
          s.h0*r.h1 + s.h1*r.h0 + s.h2*rr.h3 + s.h3*rr.h2 + s.h4*rr.h1,
          s.h0*r.h2 + s.h1*r.h1 + s.h2*r.h0 + s.h3*rr.h3 + s.h4*rr.h2,
          s.h0*r.h3 + s.h1*r.h2 + s.h2*r.h1 + s.h3*r.h0 + s.h4*rr.h3,
          s.h4*rr.h4)
  }

  /** The relation between r and the scaled limbs rr that poly_blocks sets up */
  predicate Scaled(r: Words, rr: Words, q0: int, q1: int, q2: int, q3: int) {
    && r == Words(4*q0 + rr.h4, 4*q1, 4*q2, 4*q3, 0)
    && rr.h0 == 5*q0 && rr.h1 == 5*q1 && rr.h2 == 5*q2 && rr.h3 == 5*q3
  }

  lemma RowsAreColumns(s: Words, r: Words, rr: Words, q0: int, q1: int, q2: int, q3: int)
    requires Scaled(r, rr, q0, q1, q2, q3)
    ensures Rows(s, r, rr) == Sum(Column0(s, q0, rr.h4), Column1(s, q1), Column2(s, q2), Column3(s, q3))
  {}

  lemma RowsVal(s: Words, r: Words, rr: Words, q0: int, q1: int, q2: int, q3: int) returns (k: int)
    requires Scaled(r, rr, q0, q1, q2, q3)
    ensures Val(s)*Val(r) == Val(Rows(s, r, rr)) + Q*k
  {
    hide Val, Sum, Column0, Column1, Column2, Column3, Rows;
    RowsAreColumns(s, r, rr, q0, q1, q2, q3);
    k := ColumnsVal(s, rr.h4, q0, q1, q2, q3);
  }

  /** A product of a sum limb and a limb of r or 5/4 r */
  method Prod(a: u64, b: u32) returns (t: u64)
    requires a <= 0x1_ffff_fffe && b <= 0x13ff_fffb
    ensures t as int == a as int * b as int
    ensures t <= 0x1_ffff_fffe * 0x13ff_fffb
    ensures b <= 0xfff_fffc ==> t <= 0x1_ffff_fffe * 0xfff_fffc
    ensures b <= 0xfff_ffff ==> t <= 0x1_ffff_fffe * 0xfff_ffff
  {
    AtMost(a as int, b as int, 0x1_ffff_fffe, 0x13ff_fffb);
    if b <= 0xfff_ffff { AtMost(a as int, b as int, 0x1_ffff_fffe, 0xfff_ffff); }
    if b <= 0xfff_fffc { AtMost(a as int, b as int, 0x1_ffff_fffe, 0xfff_fffc); }
    t := a * b as u64;
  }

  lemma AtMost(a: int, b: int, m: int, n: int)
    requires 0 <= a <= m && 0 <= b <= n
    ensures 0 <= a * b <= m * n
  {
    assert a * (n - b) >= 0 && (m - a) * n >= 0;
    assert a * (n - b) == a * n - a * b && (m - a) * n == m * n - a * n;
  }

  /** One row of the product */
  method Row(s0: u64, b0: u32, s1: u64, b1: u32, s2: u64, b2: u32, s3: u64, b3: u32, s4: u32, b4: u32)
    returns (x: u64)
    requires s0 <= 0x1_ffff_fffe && s1 <= 0x1_ffff_fffe && s2 <= 0x1_ffff_fffe && s3 <= 0x1_ffff_fffe && s4 <= 5
    requires b0 <= 0x13ff_fffb && b1 <= 0x13ff_fffb && b2 <= 0x13ff_fffb && b3 <= 0x13ff_fffb && b4 <= 0x13ff_fffb
    ensures x as int == s0 as int * b0 as int + s1 as int * b1 as int + s2 as int * b2 as int
                        + s3 as int * b3 as int + s4 as int * b4 as int
    ensures x < 0xc000_0000_0000_0000
    ensures b0 <= 0xfff_fffc && b1 <= 0xfff_fffc && b2 <= 0xfff_fffc && b3 <= 0xfff_ffff
            ==> x <= 0x7fff_ffe5_ffff_ffff
  {
    var p0 := Prod(s0, b0);
    var p1 := Prod(s1, b1);
    var p2 := Prod(s2, b2);
    var p3 := Prod(s3, b3);
    AtMost(s4 as int, b4 as int, 5, 0x13ff_fffb);
    x := p0 + p1 + p2 + p3 + s4 as u64 * b4 as u64;
  }

  /** rr = (r >> 2) + r, for a multiple of 4 */
  method FiveQuarters(r: u32) returns (rr: u32, ghost q: int)
    requires r <= 0xfff_fffc && r % 4 == 0
    ensures r as int == 4*q && rr as int == 5*q && rr <= 0x13ff_fffb
  {
    rr := r / 4 + r;
    q := r as int / 4;
  }

  /** rr0 = (r0 >> 2) * 5 loses two bits, which rr4 = r0 & 3 recovers */
  method LowFiveQuarters(r0: u32) returns (rr0: u32, rr4: u32, ghost q: int)
    requires r0 <= 0xfff_ffff
    ensures r0 as int == 4*q + rr4 as int && rr0 as int == 5*q && rr0 <= 0x13ff_fffb && rr4 <= 3
  {
    rr0 := r0 / 4 * 5;
    rr4 := r0 % 4;
    q := r0 as int / 4;
  }

  /** (h + c) * r without carry propagation */
  method Multiply(s0: u64, s1: u64, s2: u64, s3: u64, s4: u32, r0: u32, r1: u32, r2: u32, r3: u32)
    returns (x0: u64, x1: u64, x2: u64, x3: u64, x4: u32, ghost k: int)
    requires s0 <= 0x1_ffff_fffe && s1 <= 0x1_ffff_fffe && s2 <= 0x1_ffff_fffe && s3 <= 0x1_ffff_fffe && s4 <= 5
    requires r0 <= 0xfff_ffff && r1 <= 0xfff_fffc && r2 <= 0xfff_fffc && r3 <= 0xfff_fffc
    requires r1 % 4 == 0 && r2 % 4 == 0 && r3 % 4 == 0
    ensures Val(Words(s0 as int, s1 as int, s2 as int, s3 as int, s4 as int))
            * Val(Words(r0 as int, r1 as int, r2 as int, r3 as int, 0))
         == Val(Words(x0 as int, x1 as int, x2 as int, x3 as int, x4 as int)) + Q*k
    ensures x0 < 0xc000_0000_0000_0000 && x1 < 0xc000_0000_0000_0000 && x2 < 0xc000_0000_0000_0000
    ensures x3 <= 0x7fff_ffe5_ffff_ffff && x4 <= 15
  {
    hide Val;
    var rr0, rr1, rr2, rr3, rr4;
    ghost var q0, q1, q2, q3;
    rr0, rr4, q0 := LowFiveQuarters(r0);
    rr1, q1 := FiveQuarters(r1);
    rr2, q2 := FiveQuarters(r2);
    rr3, q3 := FiveQuarters(r3);
    x0 := Row(s0, r0, s1, rr3, s2, rr2, s3, rr1, s4, rr0);
    x1 := Row(s0, r1, s1, r0, s2, rr3, s3, rr2, s4, rr1);
    x2 := Row(s0, r2, s1, r1, s2, r0, s3, rr3, s4, rr2);
    x3 := Row(s0, r3, s1, r2, s2, r1, s3, r0, s4, rr3);
    AtMost(s4 as int, rr4 as int, 5, 3);
    x4 := s4 * rr4;
    ghost var s := Words(s0 as int, s1 as int, s2 as int, s3 as int, s4 as int);
    ghost var r := Words(r0 as int, r1 as int, r2 as int, r3 as int, 0);
    ghost var rr := Words(rr0 as int, rr1 as int, rr2 as int, rr3 as int, rr4 as int);
    assert Words(x0 as int, x1 as int, x2 as int, x3 as int, x4 as int) == Rows(s, r, rr);
    k := RowsVal(s, r, rr, q0, q1, q2, q3);
  }

  /** x & 0xffffffff and x >> 32 */
  method Halves(x: u64) returns (low: u64, high: u64)
    ensures x as int == low as int + 0x1_0000_0000*(high as int)
    ensures low < 0x1_0000_0000
  {
    low := x % 0x1_0000_0000;
    high := x / 0x1_0000_0000;
  }

  /** The partial reduction modulo 2^130 - 5 that ends a block; the excess limb stays at most 4 */
  method Reduce(x0: u64, x1: u64, x2: u64, x3: u64, x4: u32)
    returns (h0: u64, h1: u64, h2: u64, h3: u64, h4: u64, ghost k: int)
    requires x0 < 0xc000_0000_0000_0000 && x1 < 0xc000_0000_0000_0000 && x2 < 0xc000_0000_0000_0000
    requires x3 <= 0x7fff_ffe5_ffff_ffff && x4 <= 15
    ensures h0 < 0x1_0000_0000 && h1 < 0x1_0000_0000 && h2 < 0x1_0000_0000 && h3 < 0x1_0000_0000 && h4 <= 4
    ensures Val(Words(x0 as int, x1 as int, x2 as int, x3 as int, x4 as int))
         == Val(Words(h0 as int, h1 as int, h2 as int, h3 as int, h4 as int)) + Q*k
  {
    var low0, high0 := Halves(x0);
    var low1, high1 := Halves(x1);
    var low2, high2 := Halves(x2);
    var low3, high3 := Halves(x3);
    var u5 := x4 as u64 + high3;
    assert u5 <= 0x7fff_fff5;
    var c;
    h0, c := Halves(u5 / 4 * 5 + low0);
    h1, c := Halves(c + low1 + high0);
    h2, c := Halves(c + low2 + high1);
    h3, c := Halves(c + low3 + high2);
    h4 := c + u5 % 4;
    k := u5 as int / 4;
  }

  // Loading the key: masks on words instead of masks on bytes.

  /** w & 0x0fffffff */
  function Mask28(w: u32): u32 { w % 0x1000_0000 }

  /** w & 0x0ffffffc */
  function Mask28x4(w: u32): (r: u32)
    ensures r <= 0xfff_fffc && r % 4 == 0
  {
    w % 0x1000_0000 / 4 * 4
  }

  lemma ClampTop(a: int, b: int, c: int, d: int)
    requires 0 <= a < 0x100 && 0 <= b < 0x100 && 0 <= c < 0x100 && 0 <= d < 0x100
    ensures (a + 0x100*b + 0x1_0000*c + 0x100_0000*d) % 0x1000_0000
         == a + 0x100*b + 0x1_0000*c + 0x100_0000*(d % 16)
  {
    var low := a + 0x100*b + 0x1_0000*c + 0x100_0000*(d % 16);
    ModUnique(low + 0x1000_0000*(d / 16), low, d / 16, 0x1000_0000);
  }

  lemma ClampBottom(a: int, n: int)
    ensures (a + 4*n) / 4 * 4 == a - a % 4 + 4*n
  {
    ModUnique(a + 4*n, a % 4, a / 4 + n, 4);
  }

  lemma ClampedLoad0(k: seq<byte>)
    requires |k| == 32
    ensures Load32(Clamped(k), 0) == Mask28(Load32(k, 0))
  {
    ClampTop(k[0] as int, k[1] as int, k[2] as int, k[3] as int);
  }

  lemma ClampedLoad(k: seq<byte>, i: nat)
    requires |k| == 32 && (i == 4 || i == 8 || i == 12)
    ensures Load32(Clamped(k), i) == Mask28x4(Load32(k, i))
  {
    var c := Clamped(k);
    assert c[i] == k[i] - k[i] % 4 && c[i + 1] == k[i + 1] && c[i + 2] == k[i + 2] && c[i + 3] == k[i + 3] % 16;
    hide Clamped;
    ClampTop(k[i] as int, k[i + 1] as int, k[i + 2] as int, k[i + 3] as int);
    ClampBottom(k[i] as int, 0x40*(k[i + 1] as int) + 0x4000*(k[i + 2] as int) + 0x40_0000*((k[i + 3] % 16) as int));
  }

  /** Clamping words is clamping bytes. */
  lemma ClampedWords(k: seq<byte>)
    requires |k| == 32
    ensures Val(Words(Mask28(Load32(k, 0)) as int, Mask28x4(Load32(k, 4)) as int,
                      Mask28x4(Load32(k, 8)) as int, Mask28x4(Load32(k, 12)) as int, 0)) == R(k)
  {
    hide Clamped, Load32, LE, Mask28, Mask28x4;
    FourLoads(Clamped(k));
    ClampedLoad0(k);
    ClampedLoad(k, 4);
    ClampedLoad(k, 8);
    ClampedLoad(k, 12);
  }

  // The final addition.

  /** How often 2^130 - 5 fits: the carry of h + 5 out of bit 130 */
  method Excess(h0: u32, h1: u32, h2: u32, h3: u32, h4: u32) returns (c: u64)
    requires h4 <= 4
    ensures c == if Val(Words(h0 as int, h1 as int, h2 as int, h3 as int, h4 as int)) >= Q then 1 else 0
  {
    var low0, low1, low2, low3;
    low0, c := Halves(5 + h0 as u64);
    low1, c := Halves(c + h1 as u64);
    low2, c := Halves(c + h2 as u64);
    low3, c := Halves(c + h3 as u64);
    c := (c + h4 as u64) / 4;
  }

  method AddPad(c: u64, h0: u32, h1: u32, h2: u32, h3: u32, p0: u32, p1: u32, p2: u32, p3: u32)
    returns (f0: u64, f1: u64, f2: u64, f3: u64, ghost over: int)
    requires c <= 1
    ensures f0 < 0x1_0000_0000 && f1 < 0x1_0000_0000 && f2 < 0x1_0000_0000 && f3 < 0x1_0000_0000
    ensures Val(Words(f0 as int, f1 as int, f2 as int, f3 as int, over))
         == Val(Words(h0 as int, h1 as int, h2 as int, h3 as int, 0))
            + Val(Words(p0 as int, p1 as int, p2 as int, p3 as int, 0)) + 5*(c as int)
  {
    var d;
    f0, d := Halves(c * 5 + h0 as u64 + p0 as u64);
    f1, d := Halves(d + h1 as u64 + p1 as u64);
    f2, d := Halves(d + h2 as u64 + p2 as u64);
    f3, d := Halves(d + h3 as u64 + p3 as u64);
    over := d as int;
  }

  lemma Reduced(h: Words, c: int)
    requires 0 <= h.h0 < 0x1_0000_0000 && 0 <= h.h1 < 0x1_0000_0000 && 0 <= h.h2 < 0x1_0000_0000
    requires 0 <= h.h3 < 0x1_0000_0000 && 0 <= h.h4 <= 4
    requires c == if Val(h) >= Q then 1 else 0
    ensures Val(h) % Q == Val(Words(h.h0, h.h1, h.h2, h.h3, 0)) + 5*c + TWO_128*(h.h4 - 4*c)
  {
    var v := Val(h) - Q*c;
    assert 0 <= v < Q;
    ModUnique(Val(h), v, c, Q);
  }

  /** The reduced accumulator plus the pad, modulo 2^128, as sixteen bytes */
  method Finish(h0: u32, h1: u32, h2: u32, h3: u32, h4: u32, p0: u32, p1: u32, p2: u32, p3: u32)
    returns (tag: seq<byte>)
    requires h4 <= 4
    ensures |tag| == 16
    ensures LE(tag) == (Val(Words(h0 as int, h1 as int, h2 as int, h3 as int, h4 as int)) % Q
                        + Val(Words(p0 as int, p1 as int, p2 as int, p3 as int, 0))) % TWO_128
  {
    hide LE, WordsVal, Store32All;
    var c := Excess(h0, h1, h2, h3, h4);
    ghost var h := Words(h0 as int, h1 as int, h2 as int, h3 as int, h4 as int);
    Reduced(h, c as int);
    var f0, f1, f2, f3;
    ghost var over;
    f0, f1, f2, f3, over := AddPad(c, h0, h1, h2, h3, p0, p1, p2, p3);
    tag := Store32All([f0 as u32, f1 as u32, f2 as u32, f3 as u32]);
    Store32AllLE([f0 as u32, f1 as u32, f2 as u32, f3 as u32]);
    FourWords(f0 as u32, f1 as u32, f2 as u32, f3 as u32);
    ghost var k := over + h4 as int - 4*(c as int);
    TagBytes(LE(tag) + TWO_128*k, tag, k);
  }

  /** gap(x, 16): how many bytes are missing to the next multiple of 16 */
  function Gap(x: nat): (g: nat)
    ensures g < 16 && (x + g) % 16 == 0
    ensures x < 16 ==> g == if x == 0 then 0 else 16 - x
  {
    var r := x % 16;
    if r == 0 then 0 else 16 - r
  }

  class Poly1305 {
    var h0: u32
    var h1: u32
    var h2: u32
    var h3: u32
    var h4: u32
    var r0: u32
    var r1: u32
    var r2: u32
    var r3: u32
    var p0: u32
    var p1: u32
    var p2: u32
    var p3: u32
    const c: array<byte>
    var cIdx: nat

    /** The key and the bytes given to update so far */
    ghost var key: seq<byte>
    ghost var msg: seq<byte>

    ghost function H(): Words
      reads this
    {
      Words(h0 as int, h1 as int, h2 as int, h3 as int, h4 as int)
    }

    ghost predicate KeyLoaded()
      reads this
    {
      && |key| == 32
      && r0 <= 0xfff_ffff && r1 <= 0xfff_fffc && r2 <= 0xfff_fffc && r3 <= 0xfff_fffc
      && r1 % 4 == 0 && r2 % 4 == 0 && r3 % 4 == 0
      && Val(Words(r0 as int, r1 as int, r2 as int, r3 as int, 0)) == R(key)
      && p0 == Load32(key, 16) && p1 == Load32(key, 20) && p2 == Load32(key, 24) && p3 == Load32(key, 28)
    }

    /** The documented bound on h, and the accumulator holds the whole blocks of the message */
    ghost predicate Valid()
      reads this, c
    {
      && KeyLoaded() && h4 <= 4
      && c.Length == 16 && cIdx < 16 && cIdx <= |msg|
      && (|msg| - cIdx) % 16 == 0
      && Val(H()) % Q == Acc(R(key), msg[..|msg| - cIdx])
      && c[..cIdx] == msg[|msg| - cIdx..]
    }

    constructor (k: seq<byte>)
      requires |k| == 32
      ensures Valid() && key == k && msg == [] && fresh(c)
    {
      hide LE, Val, Load32, R;
      c := new byte[16];
      h0, h1, h2, h3, h4 := 0, 0, 0, 0, 0;
      cIdx := 0;
      r0, r1 := Mask28(Load32(k, 0)), Mask28x4(Load32(k, 4));
      r2, r3 := Mask28x4(Load32(k, 8)), Mask28x4(Load32(k, 12));
      p0, p1, p2, p3 := Load32(k, 16), Load32(k, 20), Load32(k, 24), Load32(k, 28);
      key, msg := k, [];
      new;
      ClampedWords(k);
      ZeroVal(H());
    }

    /** One turn of poly_blocks: h = (h + block) * r, keeping h4 <= 4 */
    method Block(data: seq<byte>, end: u32)
      requires |data| == 16 && end <= 1 && KeyLoaded() && h4 <= 4
      modifies this`h0, this`h1, this`h2, this`h3, this`h4
      ensures h4 <= 4
      ensures Val(H()) % Q == ((old(Val(H())) % Q + LE(data) + end as int * TWO_128) * R(key)) % Q
    {
      hide LE, Val, Load32, R;
      var s0, s1 := h0 as u64 + Load32(data, 0) as u64, h1 as u64 + Load32(data, 4) as u64;
      var s2, s3 := h2 as u64 + Load32(data, 8) as u64, h3 as u64 + Load32(data, 12) as u64;
      var s4 := h4 + end;
      ghost var v, block := Val(H()), LE(data) + end as int * TWO_128;
      AddBlock(H(), data, end as int);
      var x0, x1, x2, x3, x4;
      ghost var k;
      x0, x1, x2, x3, x4, k := Multiply(s0, s1, s2, s3, s4, r0, r1, r2, r3);
      var u0, u1, u2, u3, u4;
      ghost var l;
      u0, u1, u2, u3, u4, l := Reduce(x0, x1, x2, x3, x4);
      h0, h1, h2, h3, h4 := u0 as u32, u1 as u32, u2 as u32, u3 as u32, u4 as u32;
      AbsorbCongruent(v, block, R(key), Val(H()), k + l);
    }

    method FeedBlock(data: seq<byte>)
      requires |data| == 16 && Valid() && cIdx == 0
      modifies this`h0, this`h1, this`h2, this`h3, this`h4, this`msg
      ensures Valid() && msg == old(msg) + data
    {
      hide LE, Val, Load32, R, Acc;
      assert msg[..|msg|] == msg;
      FullBlock(R(key), msg, data);
      Block(data, 1);
      msg := msg + data;
      assert msg[..|msg|] == msg;
    }

    /** poly_blocks over whole blocks of the message */
    method Blocks(data: seq<byte>)
      requires |data| % 16 == 0 && Valid() && cIdx == 0
      modifies this`h0, this`h1, this`h2, this`h3, this`h4, this`msg
      ensures Valid() && msg == old(msg) + data
    {
      hide Valid;
      var n := |data| / 16;
      for i := 0 to n
        invariant Valid() && msg == old(msg) + data[..16*i]
      {
        FeedBlock(data[16*i..16*i + 16]);
        assert data[..16*i] + data[16*i..16*i + 16] == data[..16*(i + 1)];
      }
      assert data[..16*n] == data;
    }

    /** Append bytes to the chunk, one by one */
    method Append(data: seq<byte>)
      requires Valid() && cIdx + |data| < 16
      modifies this`cIdx, this`msg, c
      ensures Valid() && cIdx == old(cIdx) + |data| && msg == old(msg) + data
    {
      hide LE, Val, Load32, R, Acc;
      CopyInto(c, cIdx, data);
      ghost var whole := msg[..|msg| - cIdx];
      cIdx := cIdx + |data|;
      msg := msg + data;
      assert msg[..|msg| - cIdx] == whole;
      assert msg[|msg| - cIdx..] == c[..cIdx];
    }

    /** Complete the chunk and process it */
    method Complete(data: seq<byte>)
      requires Valid() && 0 < cIdx && |data| == 16 - cIdx
      modifies this, c
      ensures Valid() && cIdx == 0 && key == old(key) && msg == old(msg) + data
    {
      hide LE, Val, Load32, R, Acc;
      CopyInto(c, cIdx, data);
      ghost var whole, rest := msg[..|msg| - cIdx], msg[|msg| - cIdx..];
      assert msg == whole + rest;
      assert c[..] == rest + data;
      msg, cIdx := whole, 0;
      assert msg[..|msg|] == msg && c[..0] == [];
      Blocks(c[..]);
      assert whole + (rest + data) == (whole + rest) + data;
    }

    /** Fill up the chunk; process it when it is complete */
    method Align(data: seq<byte>)
      requires Valid() && 0 < cIdx && |data| <= 16 - cIdx
      modifies this, c
      ensures Valid() && key == old(key) && msg == old(msg) + data
      ensures cIdx == if old(cIdx) + |data| == 16 then 0 else old(cIdx) + |data|
    {
      hide Valid;
      Bounds();
      if cIdx + |data| == 16 {
        Complete(data);
      } else {
        Append(data);
      }
    }

    /** crypto_poly1305_update: align with the block boundary, then whole blocks, then the rest */
    method Update(message: seq<byte>)
      requires Valid()
      modifies this, c
      ensures Valid() && key == old(key) && msg == old(msg) + message
    {
      hide Valid, Gap;
      Bounds();
      var aligned := if Gap(cIdx) <= |message| then Gap(cIdx) else |message|;
      if aligned > 0 {
        Align(message[..aligned]);
      }
      var tail := message[aligned..];
      assert message == message[..aligned] + tail;
      if |tail| > 0 {
        BlocksThenRest(tail);
      }
    }

    /** From a block boundary: whole blocks, then the rest into the chunk */
    method BlocksThenRest(data: seq<byte>)
      requires Valid() && cIdx == 0
      modifies this, c
      ensures Valid() && key == old(key) && msg == old(msg) + data
    {
      hide Valid;
      var n := |data| / 16 * 16;
      Blocks(data[..n]);
      assert data == data[..n] + data[n..];
      Append(data[n..]);
    }

    lemma Bounds()
      requires Valid()
      ensures cIdx < 16
    {}

    /** Absorb a short last block, if any: afterwards h holds the whole message */
    method Pad()
      requires Valid()
      modifies this, c
      ensures KeyLoaded() && h4 <= 4 && key == old(key)
      ensures Val(H()) % Q == Acc(R(key), old(msg))
    {
      hide LE, R, Val, Load32, Acc, Pow256, Zeros;
      assert msg == msg[..|msg| - cIdx] + msg[|msg| - cIdx..];
      if cIdx != 0 {
        ghost var rest := c[..cIdx];
        CopyInto(c, cIdx, Zeros(16 - cIdx));
        c[cIdx] := 1;
        assert c[..] == rest + [1] + Zeros(15 - |rest|);
        PaddedBlock(rest);
        AccAppend(R(key), msg[..|msg| - cIdx], rest);
        PaddedAbsorb(R(key), Val(H()) % Q, rest, c[..]);
        Block(c[..], 0);
      } else {
        assert msg[..|msg| - cIdx] == msg;
      }
    }

    /** crypto_poly1305_final: the tag of all bytes given to update; the context is wiped */
    method Final() returns (mac: seq<byte>)
      requires Valid()
      modifies this, c
      ensures IsTag(old(key), old(msg), mac)
    {
      hide LE, R, Val, Load32, Acc, Pow256;
      ghost var k := key;
      Pad();
      mac := Finish(h0, h1, h2, h3, h4, p0, p1, p2, p3);
      PadWords(k);
      h0, h1, h2, h3, h4 := 0, 0, 0, 0, 0;
      r0, r1, r2, r3 := 0, 0, 0, 0;
      p0, p1, p2, p3 := 0, 0, 0, 0;
      cIdx := 0;
      key, msg := [], [];
    }
  }

  lemma ZeroVal(f: Words)
    requires f.h0 == 0 && f.h1 == 0 && f.h2 == 0 && f.h3 == 0 && f.h4 == 0
    ensures Val(f) == 0
  {}

  lemma AddBlock(h: Words, d: seq<byte>, end: int)
    requires |d| == 16
    ensures Val(Words(h.h0 + Load32(d, 0) as int, h.h1 + Load32(d, 4) as int, h.h2 + Load32(d, 8) as int,
                      h.h3 + Load32(d, 12) as int, h.h4 + end))
         == Val(h) + (LE(d) + end * TWO_128)
  {
    hide LE, Load32;
    FourLoads(d);
  }

  lemma PadWords(k: seq<byte>)
    requires |k| == 32
    ensures Val(Words(Load32(k, 16) as int, Load32(k, 20) as int, Load32(k, 24) as int, Load32(k, 28) as int, 0))
         == LE(k[16..])
  {
    hide LE, Load32;
    PadValue(k);
  }

  /** crypto_poly1305: the one-shot authenticator */
  method Tag(message: seq<byte>, key: seq<byte>) returns (mac: seq<byte>)
    requires |key| == 32
    ensures IsTag(key, message, mac)
  {
    var ctx := new Poly1305(key);
    ctx.Update(message);
    assert ctx.msg == message;
    mac := ctx.Final();
  }
}
