/**
 Monocypher's field arithmetic modulo 2^255 - 19 on ten signed 32-bit limbs
 (library/crypto/monocypher.c).

 A field element is an array of ten i32, updated in place.  Every method
 states its result as an operation on residues modulo P, and the machine
 integer types make the verifier check each intermediate for overflow.
 */
module Field25519 {
  import opened MachineInts
  import opened FieldLimbs
  import opened Modular

  // Field operations on residues: the meaning of the limb operations.

  function FAdd(a: int, b: int): int { (a + b) % P }

  function FSub(a: int, b: int): int { (a - b) % P }

  function FMul(a: int, b: int): int { (a * b) % P }

  // Limb vectors of machine integers.

  function Narrow(f0: i32, f1: i32, f2: i32, f3: i32, f4: i32, f5: i32, f6: i32, f7: i32, f8: i32, f9: i32): Limbs {
    Limbs(f0 as int, f1 as int, f2 as int, f3 as int, f4 as int, f5 as int, f6 as int, f7 as int, f8 as int, f9 as int)
  }

  function Wide(t0: i64, t1: i64, t2: i64, t3: i64, t4: i64, t5: i64, t6: i64, t7: i64, t8: i64, t9: i64): Limbs {
    Limbs(t0 as int, t1 as int, t2 as int, t3 as int, t4 as int, t5 as int, t6 as int, t7 as int, t8 as int, t9 as int)
  }

  // Limb arrays.

  ghost function LimbsOf(f: array<i32>): Limbs
    requires f.Length == 10
    reads f
  {
    Limbs(f[0] as int, f[1] as int, f[2] as int, f[3] as int, f[4] as int,
          f[5] as int, f[6] as int, f[7] as int, f[8] as int, f[9] as int)
  }

  /** The field element a limb array stands for. */
  ghost function Residue(f: array<i32>): int
    requires f.Length == 10
    reads f
  {
    Val(LimbsOf(f)) % P
  }

  predicate Within(x: int, bound: int) { -bound <= x <= bound }

  /** Even limbs bounded by `even`, odd limbs by `odd`. */
  predicate Bounded(f: Limbs, even: int, odd: int) {
    && Within(f.h0, even) && Within(f.h1, odd)
    && Within(f.h2, even) && Within(f.h3, odd)
    && Within(f.h4, even) && Within(f.h5, odd)
    && Within(f.h6, even) && Within(f.h7, odd)
    && Within(f.h8, even) && Within(f.h9, odd)
  }

  /** Below 1.1 * 2^25 and 1.1 * 2^24: what a carry pass leaves behind. */
  predicate TightLimbs(f: Limbs) { Bounded(f, 36909875, 18454937) }

  /** Below 1.65 * 2^26 and 1.65 * 2^25: what a multiplication accepts. */
  predicate LooseLimbs(f: Limbs) { Bounded(f, 110729625, 55364812) }

  ghost predicate Tight(f: array<i32>)
    requires f.Length == 10
    reads f
  {
    TightLimbs(LimbsOf(f))
  }

  ghost predicate Loose(f: array<i32>)
    requires f.Length == 10
    reads f
  {
    LooseLimbs(LimbsOf(f))
  }

  // Carry propagation (FE_CARRY).  The signed right shift of C is floor
  // division by a power of two.

  /** c = (t + 2^25) >> 26 and the low part t - c * 2^26, for every t for which the sum does not overflow */
  method Carry26(t: i64) returns (low: i64, c: i64)
    requires t as int + 0x200_0000 < 0x8000_0000_0000_0000
    ensures t as int == low as int + 0x400_0000 * c as int
    ensures -0x200_0000 <= low < 0x200_0000
  {
    c := (t + 0x200_0000) / 0x400_0000;
    low := t - c * 0x400_0000;
  }

  /** c = (t + 2^24) >> 25 and the low part t - c * 2^25, for every t for which the sum does not overflow */
  method Carry25(t: i64) returns (low: i64, c: i64)
    requires t as int + 0x100_0000 < 0x8000_0000_0000_0000
    ensures t as int == low as int + 0x200_0000 * c as int
    ensures -0x100_0000 <= low < 0x100_0000
  {
    c := (t + 0x100_0000) / 0x200_0000;
    low := t - c * 0x200_0000;
  }

  /**
   FE_CARRY.  The source asks for |t0| < 2^63, but its first sum overflows from
   2^63 - 2^25 on; every smaller 64-bit t0 is fine.
   */
  method FeCarry(s0: i64, s1: i64, s2: i64, s3: i64, s4: i64, s5: i64, s6: i64, s7: i64, s8: i64, s9: i64)
    returns (t0: i64, t1: i64, t2: i64, t3: i64, t4: i64, t5: i64, t6: i64, t7: i64, t8: i64, t9: i64, ghost top: int)
    requires s0 as int + 0x200_0000 < 0x8000_0000_0000_0000
    requires Bounded(Wide(0, s1, s2, s3, s4, s5, s6, s7, s8, s9), 0x4000_0000_0000_0000, 0x4000_0000_0000_0000)
    ensures TightLimbs(Wide(t0, t1, t2, t3, t4, t5, t6, t7, t8, t9))
    ensures Val(Wide(s0, s1, s2, s3, s4, s5, s6, s7, s8, s9))
         == Val(Wide(t0, t1, t2, t3, t4, t5, t6, t7, t8, t9)) + P*top
  {
    var c;
    t0, c := Carry26(s0); t1 := s1 + c;
    t4, c := Carry26(s4); t5 := s5 + c;
    t1, c := Carry25(t1); t2 := s2 + c;
    t5, c := Carry25(t5); t6 := s6 + c;
    t2, c := Carry26(t2); t3 := s3 + c;
    t6, c := Carry26(t6); t7 := s7 + c;
    t3, c := Carry25(t3); t4 := t4 + c;
    t7, c := Carry25(t7); t8 := s8 + c;
    t4, c := Carry26(t4); t5 := t5 + c;
    t8, c := Carry26(t8); t9 := s9 + c;
    t9, c := Carry25(t9); t0 := t0 + c * 19;
    top := c as int;
    t0, c := Carry26(t0); t1 := t1 + c;
  }

  // Products.

  lemma ProductMonotone(x: int, y: int, m: int, n: int)
    requires 0 <= x <= m && 0 <= y <= n
    ensures 0 <= x * y <= m * n
  {
    assert 0 <= (m - x) * y == m * y - x * y;
    assert 0 <= m * (n - y) == m * n - m * y;
  }

  lemma ProductBound(a: int, b: int, m: int, n: int)
    requires Within(a, m) && Within(b, n)
    ensures Within(a * b, m * n)
  {
    if a >= 0 {
      if b >= 0 {
        ProductMonotone(a, b, m, n);
      } else {
        ProductMonotone(a, -b, m, n);
        assert a * -b == -(a * b);
      }
    } else {
      if b >= 0 {
        ProductMonotone(-a, b, m, n);
        assert -a * b == -(a * b);
      } else {
        ProductMonotone(-a, -b, m, n);
        assert -a * -b == a * b;
      }
    }
  }

  /** The 64-bit product of two 32-bit factors */
  method Prod(a: i32, b: i32) returns (t: i64)
    ensures t as int == a as int * b as int
    ensures Within(a as int, 110729625) ==> Within(t as int, 237790059036672000)
    ensures Within(a as int, 221459250) ==> Within(t as int, 475580118073344000)
  {
    ProductBound(a as int, b as int, 0x8000_0000, 0x8000_0000);
    t := a as i64 * b as i64;
    if Within(a as int, 110729625) { ProductBound(a as int, b as int, 110729625, 0x8000_0000); }
    if Within(a as int, 221459250) { ProductBound(a as int, b as int, 221459250, 0x8000_0000); }
  }

  method Dot10(a0: i32, b0: i32, a1: i32, b1: i32, a2: i32, b2: i32, a3: i32, b3: i32, a4: i32, b4: i32, a5: i32,
          b5: i32, a6: i32, b6: i32, a7: i32, b7: i32, a8: i32, b8: i32, a9: i32, b9: i32)
    returns (t: i64)
    requires Within(a0 as int, 110729625) && Within(a1 as int, 110729625) && Within(a2 as int, 110729625)
      && Within(a3 as int, 110729625) && Within(a4 as int, 110729625) && Within(a5 as int, 110729625)
      && Within(a6 as int, 110729625) && Within(a7 as int, 110729625) && Within(a8 as int, 110729625)
      && Within(a9 as int, 110729625)
    ensures t as int == a0 as int * b0 as int + a1 as int * b1 as int + a2 as int * b2 as int +
      a3 as int * b3 as int + a4 as int * b4 as int + a5 as int * b5 as int + a6 as int * b6 as int +
      a7 as int * b7 as int + a8 as int * b8 as int + a9 as int * b9 as int
    ensures Within(t as int, 0x4000_0000_0000_0000)
  {
    var p0 := Prod(a0, b0);
    var p1 := Prod(a1, b1);
    var p2 := Prod(a2, b2);
    var p3 := Prod(a3, b3);
    var p4 := Prod(a4, b4);
    var p5 := Prod(a5, b5);
    var p6 := Prod(a6, b6);
    var p7 := Prod(a7, b7);
    var p8 := Prod(a8, b8);
    var p9 := Prod(a9, b9);
    t := p0 + p1 + p2 + p3 + p4 + p5 + p6 + p7 + p8 + p9;
  }

  method Dot5(a0: i32, b0: i32, a1: i32, b1: i32, a2: i32, b2: i32, a3: i32, b3: i32, a4: i32, b4: i32)
    returns (t: i64)
    requires Within(a0 as int, 221459250) && Within(a1 as int, 221459250) && Within(a2 as int, 221459250)
      && Within(a3 as int, 221459250) && Within(a4 as int, 221459250)
    ensures t as int == a0 as int * b0 as int + a1 as int * b1 as int + a2 as int * b2 as int +
      a3 as int * b3 as int + a4 as int * b4 as int
    ensures Within(t as int, 0x4000_0000_0000_0000)
  {
    var p0 := Prod(a0, b0);
    var p1 := Prod(a1, b1);
    var p2 := Prod(a2, b2);
    var p3 := Prod(a3, b3);
    var p4 := Prod(a4, b4);
    t := p0 + p1 + p2 + p3 + p4;
  }

  method Dot6(a0: i32, b0: i32, a1: i32, b1: i32, a2: i32, b2: i32, a3: i32, b3: i32, a4: i32, b4: i32, a5: i32,
          b5: i32)
    returns (t: i64)
    requires Within(a0 as int, 221459250) && Within(a1 as int, 221459250) && Within(a2 as int, 221459250)
      && Within(a3 as int, 221459250) && Within(a4 as int, 221459250) && Within(a5 as int, 221459250)
    ensures t as int == a0 as int * b0 as int + a1 as int * b1 as int + a2 as int * b2 as int +
      a3 as int * b3 as int + a4 as int * b4 as int + a5 as int * b5 as int
    ensures Within(t as int, 0x4000_0000_0000_0000)
  {
    var p0 := Prod(a0, b0);
    var p1 := Prod(a1, b1);
    var p2 := Prod(a2, b2);
    var p3 := Prod(a3, b3);
    var p4 := Prod(a4, b4);
    var p5 := Prod(a5, b5);
    t := p0 + p1 + p2 + p3 + p4 + p5;
  }

  /** The ten row sums of fe_mul, in its own order and with its own scaled operands */
  method MulRows(f0: i32, f1: i32, f2: i32, f3: i32, f4: i32, f5: i32, f6: i32, f7: i32, f8: i32, f9: i32,
                 g0: i32, g1: i32, g2: i32, g3: i32, g4: i32, g5: i32, g6: i32, g7: i32, g8: i32, g9: i32)
    returns (t0: i64, t1: i64, t2: i64, t3: i64, t4: i64, t5: i64, t6: i64, t7: i64, t8: i64, t9: i64)
    requires LooseLimbs(Narrow(f0, f1, f2, f3, f4, f5, f6, f7, f8, f9))
    requires LooseLimbs(Narrow(g0, g1, g2, g3, g4, g5, g6, g7, g8, g9))
    ensures Wide(t0, t1, t2, t3, t4, t5, t6, t7, t8, t9)
         == Rows(Narrow(f0, f1, f2, f3, f4, f5, f6, f7, f8, f9),
                 Narrow(g0, g1, g2, g3, g4, g5, g6, g7, g8, g9))
    ensures Bounded(Wide(t0, t1, t2, t3, t4, t5, t6, t7, t8, t9), 0x4000_0000_0000_0000, 0x4000_0000_0000_0000)
  {
    var F1, F3, F5, F7, F9 := f1*2, f3*2, f5*2, f7*2, f9*2;
    var G1, G2, G3, G4, G5, G6, G7, G8, G9 := g1*19, g2*19, g3*19, g4*19, g5*19, g6*19, g7*19, g8*19, g9*19;
    t0 := Dot10(f0, g0, F1, G9, f2, G8, F3, G7, f4, G6, F5, G5, f6, G4, F7, G3, f8, G2, F9, G1);
    t1 := Dot10(f0, g1, f1, g0, f2, G9, f3, G8, f4, G7, f5, G6, f6, G5, f7, G4, f8, G3, f9, G2);
    t2 := Dot10(f0, g2, F1, g1, f2, g0, F3, G9, f4, G8, F5, G7, f6, G6, F7, G5, f8, G4, F9, G3);
    t3 := Dot10(f0, g3, f1, g2, f2, g1, f3, g0, f4, G9, f5, G8, f6, G7, f7, G6, f8, G5, f9, G4);
    t4 := Dot10(f0, g4, F1, g3, f2, g2, F3, g1, f4, g0, F5, G9, f6, G8, F7, G7, f8, G6, F9, G5);
    t5 := Dot10(f0, g5, f1, g4, f2, g3, f3, g2, f4, g1, f5, g0, f6, G9, f7, G8, f8, G7, f9, G6);
    t6 := Dot10(f0, g6, F1, g5, f2, g4, F3, g3, f4, g2, F5, g1, f6, g0, F7, G9, f8, G8, F9, G7);
    t7 := Dot10(f0, g7, f1, g6, f2, g5, f3, g4, f4, g3, f5, g2, f6, g1, f7, g0, f8, G9, f9, G8);
    t8 := Dot10(f0, g8, F1, g7, f2, g6, F3, g5, f4, g4, F5, g3, f6, g2, F7, g1, f8, g0, F9, G9);
    t9 := Dot10(f0, g9, f1, g8, f2, g7, f3, g6, f4, g5, f5, g4, f6, g3, f7, g2, f8, g1, f9, g0);
  }

  /** The ten row sums of fe_sq, which uses each cross product once */
  method SqRows(f0: i32, f1: i32, f2: i32, f3: i32, f4: i32, f5: i32, f6: i32, f7: i32, f8: i32, f9: i32)
    returns (t0: i64, t1: i64, t2: i64, t3: i64, t4: i64, t5: i64, t6: i64, t7: i64, t8: i64, t9: i64)
    requires LooseLimbs(Narrow(f0, f1, f2, f3, f4, f5, f6, f7, f8, f9))
    ensures Wide(t0, t1, t2, t3, t4, t5, t6, t7, t8, t9)
         == Rows(Narrow(f0, f1, f2, f3, f4, f5, f6, f7, f8, f9),
                 Narrow(f0, f1, f2, f3, f4, f5, f6, f7, f8, f9))
    ensures Bounded(Wide(t0, t1, t2, t3, t4, t5, t6, t7, t8, t9), 0x4000_0000_0000_0000, 0x4000_0000_0000_0000)
  {
    var f0_2, f1_2, f2_2, f3_2 := f0*2, f1*2, f2*2, f3*2;
    var f4_2, f5_2, f6_2, f7_2 := f4*2, f5*2, f6*2, f7*2;
    var f5_38, f6_19, f7_38, f8_19, f9_38 := f5*38, f6*19, f7*38, f8*19, f9*38;
    t0 := Dot6(f0, f0, f1_2, f9_38, f2_2, f8_19, f3_2, f7_38, f4_2, f6_19, f5, f5_38);
    t1 := Dot5(f0_2, f1, f2, f9_38, f3_2, f8_19, f4, f7_38, f5_2, f6_19);
    t2 := Dot6(f0_2, f2, f1_2, f1, f3_2, f9_38, f4_2, f8_19, f5_2, f7_38, f6, f6_19);
    t3 := Dot5(f0_2, f3, f1_2, f2, f4, f9_38, f5_2, f8_19, f6, f7_38);
    t4 := Dot6(f0_2, f4, f1_2, f3_2, f2, f2, f5_2, f9_38, f6_2, f8_19, f7, f7_38);
    t5 := Dot5(f0_2, f5, f1_2, f4, f2_2, f3, f6, f9_38, f7_2, f8_19);
    t6 := Dot6(f0_2, f6, f1_2, f5_2, f2_2, f4, f3_2, f3, f7_2, f9_38, f8, f8_19);
    t7 := Dot5(f0_2, f7, f1_2, f6, f2_2, f5, f3_2, f4, f8, f9_38);
    t8 := Dot6(f0_2, f8, f1_2, f7_2, f2_2, f6, f3_2, f5_2, f4, f4, f9, f9_38);
    t9 := Dot5(f0_2, f9, f1_2, f8, f2_2, f7, f3_2, f6, f4, f5_2);
    ghost var f := Narrow(f0, f1, f2, f3, f4, f5, f6, f7, f8, f9);
    SquareRow0(f); SquareRow1(f); SquareRow2(f); SquareRow3(f); SquareRow4(f);
    SquareRow5(f); SquareRow6(f); SquareRow7(f); SquareRow8(f); SquareRow9(f);
  }

  // Operations on limb arrays.  The destination may be one of the operands.

  /** Carry the row sums and store them: the tail of every multiplication */
  method Store(h: array<i32>, s0: i64, s1: i64, s2: i64, s3: i64, s4: i64, s5: i64, s6: i64, s7: i64, s8: i64, s9: i64)
    requires h.Length == 10
    requires Bounded(Wide(s0, s1, s2, s3, s4, s5, s6, s7, s8, s9), 0x4000_0000_0000_0000, 0x4000_0000_0000_0000)
    modifies h
    ensures Tight(h)
    ensures Residue(h) == Val(Wide(s0, s1, s2, s3, s4, s5, s6, s7, s8, s9)) % P
  {
    var t0, t1, t2, t3, t4, t5, t6, t7, t8, t9;
    ghost var top;
    t0, t1, t2, t3, t4, t5, t6, t7, t8, t9, top := FeCarry(s0, s1, s2, s3, s4, s5, s6, s7, s8, s9);
    h[0], h[1], h[2], h[3], h[4] := t0 as i32, t1 as i32, t2 as i32, t3 as i32, t4 as i32;
    h[5], h[6], h[7], h[8], h[9] := t5 as i32, t6 as i32, t7 as i32, t8 as i32, t9 as i32;
    ghost var s := Wide(s0, s1, s2, s3, s4, s5, s6, s7, s8, s9);
    assert LimbsOf(h) == Wide(t0, t1, t2, t3, t4, t5, t6, t7, t8, t9);
    ModShift(Val(s), Val(LimbsOf(h)), top, P);
  }

  method FeMul(h: array<i32>, f: array<i32>, g: array<i32>)
    requires h.Length == 10 && f.Length == 10 && g.Length == 10
    requires Loose(f) && Loose(g)
    modifies h
    ensures Tight(h)
    ensures Residue(h) == FMul(old(Residue(f)), old(Residue(g)))
  {
    hide Val, Rows;
    ghost var a, b := LimbsOf(f), LimbsOf(g);
    var t0, t1, t2, t3, t4, t5, t6, t7, t8, t9 :=
      MulRows(f[0], f[1], f[2], f[3], f[4], f[5], f[6], f[7], f[8], f[9],
              g[0], g[1], g[2], g[3], g[4], g[5], g[6], g[7], g[8], g[9]);
    Store(h, t0, t1, t2, t3, t4, t5, t6, t7, t8, t9);
    MulResidue(a, b);
  }

  lemma MulResidue(a: Limbs, b: Limbs)
    ensures Val(Rows(a, b)) % P == FMul(Val(a) % P, Val(b) % P)
  {
    var q := RowsVal(a, b);
    ModShift(Val(a) * Val(b), Val(Rows(a, b)), q, P);
    ModMul(Val(a), Val(b), P);
  }

  method FeSq(h: array<i32>, f: array<i32>)
    requires h.Length == 10 && f.Length == 10
    requires Loose(f)
    modifies h
    ensures Tight(h)
    ensures Residue(h) == FMul(old(Residue(f)), old(Residue(f)))
  {
    hide Val, Rows;
    ghost var a := LimbsOf(f);
    var t0, t1, t2, t3, t4, t5, t6, t7, t8, t9 :=
      SqRows(f[0], f[1], f[2], f[3], f[4], f[5], f[6], f[7], f[8], f[9]);
    Store(h, t0, t1, t2, t3, t4, t5, t6, t7, t8, t9);
    MulResidue(a, a);
  }

  function Scale(f: Limbs, c: int): Limbs {
    Limbs(f.h0*c, f.h1*c, f.h2*c, f.h3*c, f.h4*c, f.h5*c, f.h6*c, f.h7*c, f.h8*c, f.h9*c)
  }

  lemma ScaleVal(f: Limbs, c: int)
    ensures Val(Scale(f, c)) == Val(f)*c
  {}

  method FeMulSmall(h: array<i32>, f: array<i32>, g: i32)
    requires h.Length == 10 && f.Length == 10
    requires Loose(f)
    modifies h
    ensures Tight(h)
    ensures Residue(h) == FMul(old(Residue(f)), g as int % P)
  {
    ghost var a := LimbsOf(f);
    var t0 := Prod(f[0], g);
    var t1 := Prod(f[1], g);
    var t2 := Prod(f[2], g);
    var t3 := Prod(f[3], g);
    var t4 := Prod(f[4], g);
    var t5 := Prod(f[5], g);
    var t6 := Prod(f[6], g);
    var t7 := Prod(f[7], g);
    var t8 := Prod(f[8], g);
    var t9 := Prod(f[9], g);
    Store(h, t0, t1, t2, t3, t4, t5, t6, t7, t8, t9);
    ScaleVal(a, g as int);
    ModMul(Val(a), g as int, P);
  }

  lemma AddResidue(a: Limbs, b: Limbs)
    ensures Val(Add(a, b)) % P == FAdd(Val(a) % P, Val(b) % P)
  {
    AddVal(a, b);
    ModAdd(Val(a), Val(b), P);
  }

  method FeAdd(h: array<i32>, f: array<i32>, g: array<i32>)
    requires h.Length == 10 && f.Length == 10 && g.Length == 10
    requires Bounded(Add(LimbsOf(f), LimbsOf(g)), 0x7fff_ffff, 0x7fff_ffff)
    modifies h
    ensures LimbsOf(h) == Add(old(LimbsOf(f)), old(LimbsOf(g)))
    ensures Residue(h) == FAdd(old(Residue(f)), old(Residue(g)))
  {
    hide Val;
    assert forall k | 0 <= k < 10 :: Within(f[k] as int + g[k] as int, 0x7fff_ffff);
    for i := 0 to 10
      invariant forall k | 0 <= k < i :: h[k] == old(f[k]) + old(g[k])
      invariant forall k | i <= k < 10 :: f[k] == old(f[k]) && g[k] == old(g[k])
    {
      h[i] := f[i] + g[i];
    }
    AddResidue(old(LimbsOf(f)), old(LimbsOf(g)));
  }

  function Sub(f: Limbs, g: Limbs): Limbs {
    Limbs(f.h0 - g.h0, f.h1 - g.h1, f.h2 - g.h2, f.h3 - g.h3, f.h4 - g.h4,
          f.h5 - g.h5, f.h6 - g.h6, f.h7 - g.h7, f.h8 - g.h8, f.h9 - g.h9)
  }

  lemma SubVal(f: Limbs, g: Limbs)
    ensures Val(Sub(f, g)) == Val(f) - Val(g)
  {}

  lemma SubResidue(a: Limbs, b: Limbs)
    ensures Val(Sub(a, b)) % P == FSub(Val(a) % P, Val(b) % P)
  {
    SubVal(a, b);
    ModSub(Val(a), Val(b), P);
  }

  method FeSub(h: array<i32>, f: array<i32>, g: array<i32>)
    requires h.Length == 10 && f.Length == 10 && g.Length == 10
    requires Bounded(Sub(LimbsOf(f), LimbsOf(g)), 0x7fff_ffff, 0x7fff_ffff)
    modifies h
    ensures LimbsOf(h) == Sub(old(LimbsOf(f)), old(LimbsOf(g)))
    ensures Residue(h) == FSub(old(Residue(f)), old(Residue(g)))
  {
    hide Val;
    assert forall k | 0 <= k < 10 :: Within(f[k] as int - g[k] as int, 0x7fff_ffff);
    for i := 0 to 10
      invariant forall k | 0 <= k < i :: h[k] == old(f[k]) - old(g[k])
      invariant forall k | i <= k < 10 :: f[k] == old(f[k]) && g[k] == old(g[k])
    {
      h[i] := f[i] - g[i];
    }
    SubResidue(old(LimbsOf(f)), old(LimbsOf(g)));
  }

  lemma ConstVal(c: int)
    requires 0 <= c <= 1
    ensures Val(Limbs(c, 0, 0, 0, 0, 0, 0, 0, 0, 0)) % P == c
  {}

  /** Sums and differences of carried operands are within the bounds of a multiplication. */
  lemma TightSumIsLoose(f: Limbs, g: Limbs)
    requires TightLimbs(f) && TightLimbs(g)
    ensures LooseLimbs(Add(f, g)) && LooseLimbs(Sub(f, g))
  {}

  /** fe_0 and fe_1: the constant c in the lowest limb */
  method FeConst(h: array<i32>, c: i32)
    requires h.Length == 10 && 0 <= c <= 1
    modifies h
    ensures Tight(h) && Residue(h) == c as int
  {
    hide Val;
    h[0] := c;
    for i := 1 to 10
      invariant h[0] == c
      invariant forall k | 1 <= k < i :: h[k] == 0
    {
      h[i] := 0;
    }
    assert LimbsOf(h) == Limbs(c as int, 0, 0, 0, 0, 0, 0, 0, 0, 0);
    ConstVal(c as int);
  }

  method FeCopy(h: array<i32>, f: array<i32>)
    requires h.Length == 10 && f.Length == 10
    modifies h
    ensures LimbsOf(h) == old(LimbsOf(f))
  {
    for i := 0 to 10
      invariant forall k | 0 <= k < i :: h[k] == old(f[k])
      invariant forall k | i <= k < 10 :: f[k] == old(f[k])
    {
      h[i] := f[i];
    }
  }

  /** The masked exchange of fe_cswap: with the mask all ones the two words trade places, with mask 0 they stay. */
  lemma MaskedExchange(f: bv32, g: bv32)
    ensures f ^ ((f ^ g) & 0xffff_ffff) == g && g ^ ((f ^ g) & 0xffff_ffff) == f
    ensures f ^ ((f ^ g) & 0) == f && g ^ ((f ^ g) & 0) == g
  {}

  method FeCswap(f: array<i32>, g: array<i32>, b: bool)
    requires f.Length == 10 && g.Length == 10 && f != g
    modifies f, g
    ensures LimbsOf(f) == old(if b then LimbsOf(g) else LimbsOf(f))
    ensures LimbsOf(g) == old(if b then LimbsOf(f) else LimbsOf(g))
  {
    for i := 0 to 10
      invariant forall k | 0 <= k < i :: f[k] == old(if b then g[k] else f[k]) && g[k] == old(if b then f[k] else g[k])
      invariant forall k | i <= k < 10 :: f[k] == old(f[k]) && g[k] == old(g[k])
    {
      if b {
        f[i], g[i] := g[i], f[i];
      }
    }
  }
}
