/**
 Five 26-bit limbs and their products modulo 2^130 - 5: the arithmetic behind
 poly1305_block in src/wg_poly1305_neon.c.
 */
module PolyLimbs {
  import opened Poly1305Spec

  datatype Limbs = Limbs(h0: int, h1: int, h2: int, h3: int, h4: int)

  function Val(f: Limbs): int {
    f.h0 + 0x400_0000*f.h1 + 0x10_0000_0000_0000*f.h2 + 0x4000_0000_0000_0000_0000*f.h3 +
      0x100_0000_0000_0000_0000_0000_0000*f.h4
  }

  lemma ZeroVal(f: Limbs)
    requires f.h0 == 0 && f.h1 == 0 && f.h2 == 0 && f.h3 == 0 && f.h4 == 0
    ensures Val(f) == 0
  {}

  // One column per limb of r: the products in which it occurs, by row.
  // What would land at weight 2^130 comes back multiplied by 5.

  function Column0(f: Limbs, g: int): Limbs {
    Limbs(f.h0*g, f.h1*g, f.h2*g, f.h3*g, f.h4*g)
  }

  lemma Column0Val(f: Limbs, g: int) returns (q: int)
    ensures Val(f)*(0x1*g) == Val(Column0(f, g)) + Q*q
  {
    q := 0;
  }

  function Column1(f: Limbs, g: int): Limbs {
    Limbs(f.h4*(5*g), f.h0*g, f.h1*g, f.h2*g, f.h3*g)
  }

  lemma Column1Val(f: Limbs, g: int) returns (q: int)
    ensures Val(f)*(0x400_0000*g) == Val(Column1(f, g)) + Q*q
  {
    q := (f.h4)*g;
  }

  function Column2(f: Limbs, g: int): Limbs {
    Limbs(f.h3*(5*g), f.h4*(5*g), f.h0*g, f.h1*g, f.h2*g)
  }

  lemma Column2Val(f: Limbs, g: int) returns (q: int)
    ensures Val(f)*(0x10_0000_0000_0000*g) == Val(Column2(f, g)) + Q*q
  {
    q := (f.h3 + 0x400_0000*f.h4)*g;
  }

  function Column3(f: Limbs, g: int): Limbs {
    Limbs(f.h2*(5*g), f.h3*(5*g), f.h4*(5*g), f.h0*g, f.h1*g)
  }

  lemma Column3Val(f: Limbs, g: int) returns (q: int)
    ensures Val(f)*(0x4000_0000_0000_0000_0000*g) == Val(Column3(f, g)) + Q*q
  {
    q := (f.h2 + 0x400_0000*f.h3 + 0x10_0000_0000_0000*f.h4)*g;
  }

  function Column4(f: Limbs, g: int): Limbs {
    Limbs(f.h1*(5*g), f.h2*(5*g), f.h3*(5*g), f.h4*(5*g), f.h0*g)
  }

  lemma Column4Val(f: Limbs, g: int) returns (q: int)
    ensures Val(f)*(0x100_0000_0000_0000_0000_0000_0000*g) == Val(Column4(f, g)) + Q*q
  {
    q := (f.h1 + 0x400_0000*f.h2 + 0x10_0000_0000_0000*f.h3 + 0x4000_0000_0000_0000_0000*f.h4)*g;
  }

  function Row0(f: Limbs, r: Limbs): int {
    f.h0*r.h0 + f.h1*(5*r.h4) + f.h2*(5*r.h3) + f.h3*(5*r.h2) + f.h4*(5*r.h1)
  }

  function Row1(f: Limbs, r: Limbs): int {
    f.h0*r.h1 + f.h1*r.h0 + f.h2*(5*r.h4) + f.h3*(5*r.h3) + f.h4*(5*r.h2)
  }

  function Row2(f: Limbs, r: Limbs): int {
    f.h0*r.h2 + f.h1*r.h1 + f.h2*r.h0 + f.h3*(5*r.h4) + f.h4*(5*r.h3)
  }

  function Row3(f: Limbs, r: Limbs): int {
    f.h0*r.h3 + f.h1*r.h2 + f.h2*r.h1 + f.h3*r.h0 + f.h4*(5*r.h4)
  }

  function Row4(f: Limbs, r: Limbs): int {
    f.h0*r.h4 + f.h1*r.h3 + f.h2*r.h2 + f.h3*r.h1 + f.h4*r.h0
  }

  /** The five row sums of poly1305_block */
  function Rows(f: Limbs, r: Limbs): Limbs {
    Limbs(Row0(f, r), Row1(f, r), Row2(f, r), Row3(f, r), Row4(f, r))
  }

  lemma RowsAreColumns(f: Limbs, r: Limbs)
    ensures Val(Rows(f, r)) == Val(Column0(f, r.h0)) + Val(Column1(f, r.h1)) + Val(Column2(f, r.h2))
                               + Val(Column3(f, r.h3)) + Val(Column4(f, r.h4))
  {}

  lemma Distribute(v: int, r: Limbs)
    ensures v*Val(r) == v*(0x1*r.h0) + v*(0x400_0000*r.h1) + v*(0x10_0000_0000_0000*r.h2) +
      v*(0x4000_0000_0000_0000_0000*r.h3) + v*(0x100_0000_0000_0000_0000_0000_0000*r.h4)
  {}

  /** The row sums represent the product modulo 2^130 - 5. */
  lemma RowsVal(f: Limbs, r: Limbs) returns (q: int)
    ensures Val(f)*Val(r) == Val(Rows(f, r)) + Q*q
  {
    var q0 := Column0Val(f, r.h0);
    var q1 := Column1Val(f, r.h1);
    var q2 := Column2Val(f, r.h2);
    var q3 := Column3Val(f, r.h3);
    var q4 := Column4Val(f, r.h4);
    RowsAreColumns(f, r);
    Distribute(Val(f), r);
    q := q0 + q1 + q2 + q3 + q4;
  }
}
