/**
 The arithmetic meaning of the ten-limb representation of integers modulo
 2^255 - 19: limb k carries weight 2^ceil(25.5 k).

 This module is about unbounded integers only.  It proves the one identity
 that the unrolled products of fe_mul rest on: the ten row sums, with their
 factors 2 and 19, represent the product of the two values modulo P.
 */
module FieldLimbs {

  const P: int := 0x7fff_ffff_ffff_ffff_ffff_ffff_ffff_ffff_ffff_ffff_ffff_ffff_ffff_ffff_ffff_ffed

  datatype Limbs = Limbs(h0: int, h1: int, h2: int, h3: int, h4: int,
                         h5: int, h6: int, h7: int, h8: int, h9: int)

  /** The integer a limb vector stands for. */
  function Val(f: Limbs): int {
    0x1*f.h0 +
    0x400_0000*f.h1 +
    0x8_0000_0000_0000*f.h2 +
    0x2000_0000_0000_0000_0000*f.h3 +
    0x40_0000_0000_0000_0000_0000_0000*f.h4 +
    0x1_0000_0000_0000_0000_0000_0000_0000_0000*f.h5 +
    0x200_0000_0000_0000_0000_0000_0000_0000_0000_0000*f.h6 +
    0x8_0000_0000_0000_0000_0000_0000_0000_0000_0000_0000_0000*f.h7 +
    0x1000_0000_0000_0000_0000_0000_0000_0000_0000_0000_0000_0000_0000*f.h8 +
    0x40_0000_0000_0000_0000_0000_0000_0000_0000_0000_0000_0000_0000_0000_0000*f.h9
  }

  // One column per limb of g: the ten products of fe_mul in which that limb
  // occurs, placed in the rows they are added to.  Products that would land
  // at weight 2^255 and above come back at the bottom multiplied by 19, and
  // two odd limbs meet one bit higher than their row, hence the factor 2.

  function Column0(f: Limbs, g: int): Limbs {
    Limbs(f.h0*g, f.h1*g, f.h2*g, f.h3*g, f.h4*g,
          f.h5*g, f.h6*g, f.h7*g, f.h8*g, f.h9*g)
  }

  lemma Column0Val(f: Limbs, g: int) returns (q: int)
    ensures Val(f)*(0x1*g) == Val(Column0(f, g)) + P*q
  {
    q := 0;
  }

  function Column1(f: Limbs, g: int): Limbs {
    Limbs((2*f.h9)*(19*g), f.h0*g, (2*f.h1)*g, f.h2*g, (2*f.h3)*g,
          f.h4*g, (2*f.h5)*g, f.h6*g, (2*f.h7)*g, f.h8*g)
  }

  lemma Column1Val(f: Limbs, g: int) returns (q: int)
    ensures Val(f)*(0x400_0000*g) == Val(Column1(f, g)) + P*q
  {
    q := ((2*f.h9))*g;
  }

  function Column2(f: Limbs, g: int): Limbs {
    Limbs(f.h8*(19*g), f.h9*(19*g), f.h0*g, f.h1*g, f.h2*g,
          f.h3*g, f.h4*g, f.h5*g, f.h6*g, f.h7*g)
  }

  lemma Column2Val(f: Limbs, g: int) returns (q: int)
    ensures Val(f)*(0x8_0000_0000_0000*g) == Val(Column2(f, g)) + P*q
  {
    q := (f.h8 + 0x400_0000*f.h9)*g;
  }

  function Column3(f: Limbs, g: int): Limbs {
    Limbs((2*f.h7)*(19*g), f.h8*(19*g), (2*f.h9)*(19*g), f.h0*g, (2*f.h1)*g,
          f.h2*g, (2*f.h3)*g, f.h4*g, (2*f.h5)*g, f.h6*g)
  }

  lemma Column3Val(f: Limbs, g: int) returns (q: int)
    ensures Val(f)*(0x2000_0000_0000_0000_0000*g) == Val(Column3(f, g)) + P*q
  {
    q := ((2*f.h7) + 0x400_0000*f.h8 + 0x8_0000_0000_0000*(2*f.h9))*g;
  }

  function Column4(f: Limbs, g: int): Limbs {
    Limbs(f.h6*(19*g), f.h7*(19*g), f.h8*(19*g), f.h9*(19*g), f.h0*g,
          f.h1*g, f.h2*g, f.h3*g, f.h4*g, f.h5*g)
  }

  lemma Column4Val(f: Limbs, g: int) returns (q: int)
    ensures Val(f)*(0x40_0000_0000_0000_0000_0000_0000*g) == Val(Column4(f, g)) + P*q
  {
    q := (f.h6 + 0x400_0000*f.h7 + 0x8_0000_0000_0000*f.h8 + 0x2000_0000_0000_0000_0000*f.h9)*g;
  }

  function Column5(f: Limbs, g: int): Limbs {
    Limbs((2*f.h5)*(19*g), f.h6*(19*g), (2*f.h7)*(19*g), f.h8*(19*g), (2*f.h9)*(19*g),
          f.h0*g, (2*f.h1)*g, f.h2*g, (2*f.h3)*g, f.h4*g)
  }

  lemma Column5Val(f: Limbs, g: int) returns (q: int)
    ensures Val(f)*(0x1_0000_0000_0000_0000_0000_0000_0000_0000*g) == Val(Column5(f, g)) + P*q
  {
    q := ((2*f.h5) + 0x400_0000*f.h6 + 0x8_0000_0000_0000*(2*f.h7) + 0x2000_0000_0000_0000_0000*f.h8 +
      0x40_0000_0000_0000_0000_0000_0000*(2*f.h9))*g;
  }

  function Column6(f: Limbs, g: int): Limbs {
    Limbs(f.h4*(19*g), f.h5*(19*g), f.h6*(19*g), f.h7*(19*g), f.h8*(19*g),
          f.h9*(19*g), f.h0*g, f.h1*g, f.h2*g, f.h3*g)
  }

  lemma Column6Val(f: Limbs, g: int) returns (q: int)
    ensures Val(f)*(0x200_0000_0000_0000_0000_0000_0000_0000_0000_0000*g) == Val(Column6(f, g)) + P*q
  {
    q := (f.h4 + 0x400_0000*f.h5 + 0x8_0000_0000_0000*f.h6 + 0x2000_0000_0000_0000_0000*f.h7 +
      0x40_0000_0000_0000_0000_0000_0000*f.h8 + 0x1_0000_0000_0000_0000_0000_0000_0000_0000*f.h9)*g;
  }

  function Column7(f: Limbs, g: int): Limbs {
    Limbs((2*f.h3)*(19*g), f.h4*(19*g), (2*f.h5)*(19*g), f.h6*(19*g), (2*f.h7)*(19*g),
          f.h8*(19*g), (2*f.h9)*(19*g), f.h0*g, (2*f.h1)*g, f.h2*g)
  }

  lemma Column7Val(f: Limbs, g: int) returns (q: int)
    ensures Val(f)*(0x8_0000_0000_0000_0000_0000_0000_0000_0000_0000_0000_0000*g) == Val(Column7(f, g)) + P*q
  {
    q := ((2*f.h3) + 0x400_0000*f.h4 + 0x8_0000_0000_0000*(2*f.h5) + 0x2000_0000_0000_0000_0000*f.h6 +
      0x40_0000_0000_0000_0000_0000_0000*(2*f.h7) + 0x1_0000_0000_0000_0000_0000_0000_0000_0000*f.h8 +
      0x200_0000_0000_0000_0000_0000_0000_0000_0000_0000*(2*f.h9))*g;
  }

  function Column8(f: Limbs, g: int): Limbs {
    Limbs(f.h2*(19*g), f.h3*(19*g), f.h4*(19*g), f.h5*(19*g), f.h6*(19*g),
          f.h7*(19*g), f.h8*(19*g), f.h9*(19*g), f.h0*g, f.h1*g)
  }

  lemma Column8Val(f: Limbs, g: int) returns (q: int)
    ensures Val(f)*(0x1000_0000_0000_0000_0000_0000_0000_0000_0000_0000_0000_0000_0000*g) == Val(Column8(f, g)) + P*q
  {
    q := (f.h2 + 0x400_0000*f.h3 + 0x8_0000_0000_0000*f.h4 + 0x2000_0000_0000_0000_0000*f.h5 +
      0x40_0000_0000_0000_0000_0000_0000*f.h6 + 0x1_0000_0000_0000_0000_0000_0000_0000_0000*f.h7 +
      0x200_0000_0000_0000_0000_0000_0000_0000_0000_0000*f.h8 +
      0x8_0000_0000_0000_0000_0000_0000_0000_0000_0000_0000_0000*f.h9)*g;
  }

  function Column9(f: Limbs, g: int): Limbs {
    Limbs((2*f.h1)*(19*g), f.h2*(19*g), (2*f.h3)*(19*g), f.h4*(19*g), (2*f.h5)*(19*g),
          f.h6*(19*g), (2*f.h7)*(19*g), f.h8*(19*g), (2*f.h9)*(19*g), f.h0*g)
  }

  lemma Column9Val(f: Limbs, g: int) returns (q: int)
    ensures Val(f)*(0x40_0000_0000_0000_0000_0000_0000_0000_0000_0000_0000_0000_0000_0000_0000*g)
      == Val(Column9(f, g)) + P*q
  {
    q := ((2*f.h1) + 0x400_0000*f.h2 + 0x8_0000_0000_0000*(2*f.h3) + 0x2000_0000_0000_0000_0000*f.h4 +
      0x40_0000_0000_0000_0000_0000_0000*(2*f.h5) + 0x1_0000_0000_0000_0000_0000_0000_0000_0000*f.h6 +
      0x200_0000_0000_0000_0000_0000_0000_0000_0000_0000*(2*f.h7) +
      0x8_0000_0000_0000_0000_0000_0000_0000_0000_0000_0000_0000*f.h8 +
      0x1000_0000_0000_0000_0000_0000_0000_0000_0000_0000_0000_0000_0000*(2*f.h9))*g;
  }

  function Sum5(c0: Limbs, c1: Limbs, c2: Limbs, c3: Limbs, c4: Limbs): Limbs {
    Limbs(
      c0.h0 + c1.h0 + c2.h0 + c3.h0 + c4.h0,
      c0.h1 + c1.h1 + c2.h1 + c3.h1 + c4.h1,
      c0.h2 + c1.h2 + c2.h2 + c3.h2 + c4.h2,
      c0.h3 + c1.h3 + c2.h3 + c3.h3 + c4.h3,
      c0.h4 + c1.h4 + c2.h4 + c3.h4 + c4.h4,
      c0.h5 + c1.h5 + c2.h5 + c3.h5 + c4.h5,
      c0.h6 + c1.h6 + c2.h6 + c3.h6 + c4.h6,
      c0.h7 + c1.h7 + c2.h7 + c3.h7 + c4.h7,
      c0.h8 + c1.h8 + c2.h8 + c3.h8 + c4.h8,
      c0.h9 + c1.h9 + c2.h9 + c3.h9 + c4.h9)
  }

  lemma Sum5Val(c0: Limbs, c1: Limbs, c2: Limbs, c3: Limbs, c4: Limbs)
    ensures Val(Sum5(c0, c1, c2, c3, c4)) == Val(c0) + Val(c1) + Val(c2) + Val(c3) + Val(c4)
  {}

  function Add(f: Limbs, g: Limbs): Limbs {
    Limbs(f.h0 + g.h0, f.h1 + g.h1, f.h2 + g.h2, f.h3 + g.h3, f.h4 + g.h4,
          f.h5 + g.h5, f.h6 + g.h6, f.h7 + g.h7, f.h8 + g.h8, f.h9 + g.h9)
  }

  lemma AddVal(f: Limbs, g: Limbs)
    ensures Val(Add(f, g)) == Val(f) + Val(g)
  {}

  lemma Distribute(v: int, g: Limbs)
    ensures v*Val(g) ==
            v*(0x1*g.h0) +
            v*(0x400_0000*g.h1) +
            v*(0x8_0000_0000_0000*g.h2) +
            v*(0x2000_0000_0000_0000_0000*g.h3) +
            v*(0x40_0000_0000_0000_0000_0000_0000*g.h4) +
            v*(0x1_0000_0000_0000_0000_0000_0000_0000_0000*g.h5) +
            v*(0x200_0000_0000_0000_0000_0000_0000_0000_0000_0000*g.h6) +
            v*(0x8_0000_0000_0000_0000_0000_0000_0000_0000_0000_0000_0000*g.h7) +
            v*(0x1000_0000_0000_0000_0000_0000_0000_0000_0000_0000_0000_0000_0000*g.h8) +
            v*(0x40_0000_0000_0000_0000_0000_0000_0000_0000_0000_0000_0000_0000_0000_0000*g.h9)
  {}

  // The columns of the low and of the high half of g.
  function LowRows(f: Limbs, g: Limbs): Limbs {
    Sum5(Column0(f, g.h0), Column1(f, g.h1), Column2(f, g.h2), Column3(f, g.h3), Column4(f, g.h4))
  }

  function HighRows(f: Limbs, g: Limbs): Limbs {
    Sum5(Column5(f, g.h5), Column6(f, g.h6), Column7(f, g.h7), Column8(f, g.h8), Column9(f, g.h9))
  }

  lemma LowRowsVal(f: Limbs, g: Limbs) returns (q: int)
    ensures Val(f)*(0x1*g.h0) + Val(f)*(0x400_0000*g.h1) + Val(f)*(0x8_0000_0000_0000*g.h2) +
      Val(f)*(0x2000_0000_0000_0000_0000*g.h3) + Val(f)*(0x40_0000_0000_0000_0000_0000_0000*g.h4)
            == Val(LowRows(f, g)) + P*q
  {
    var q0 := Column0Val(f, g.h0);
    var q1 := Column1Val(f, g.h1);
    var q2 := Column2Val(f, g.h2);
    var q3 := Column3Val(f, g.h3);
    var q4 := Column4Val(f, g.h4);
    Sum5Val(Column0(f, g.h0), Column1(f, g.h1), Column2(f, g.h2), Column3(f, g.h3), Column4(f, g.h4));
    q := q0 + q1 + q2 + q3 + q4;
  }

  lemma HighRowsVal(f: Limbs, g: Limbs) returns (q: int)
    ensures Val(f)*(0x1_0000_0000_0000_0000_0000_0000_0000_0000*g.h5) +
      Val(f)*(0x200_0000_0000_0000_0000_0000_0000_0000_0000_0000*g.h6) +
      Val(f)*(0x8_0000_0000_0000_0000_0000_0000_0000_0000_0000_0000_0000*g.h7) +
      Val(f)*(0x1000_0000_0000_0000_0000_0000_0000_0000_0000_0000_0000_0000_0000*g.h8) +
      Val(f)*(0x40_0000_0000_0000_0000_0000_0000_0000_0000_0000_0000_0000_0000_0000_0000*g.h9)
            == Val(HighRows(f, g)) + P*q
  {
    var q5 := Column5Val(f, g.h5);
    var q6 := Column6Val(f, g.h6);
    var q7 := Column7Val(f, g.h7);
    var q8 := Column8Val(f, g.h8);
    var q9 := Column9Val(f, g.h9);
    Sum5Val(Column5(f, g.h5), Column6(f, g.h6), Column7(f, g.h7), Column8(f, g.h8), Column9(f, g.h9));
    q := q5 + q6 + q7 + q8 + q9;
  }

  // The ten row sums of fe_mul, in its own order.

  function Row0(f: Limbs, g: Limbs): int {
    f.h0*g.h0 + (2*f.h1)*(19*g.h9) + f.h2*(19*g.h8) + (2*f.h3)*(19*g.h7) + f.h4*(19*g.h6) +
    (2*f.h5)*(19*g.h5) + f.h6*(19*g.h4) + (2*f.h7)*(19*g.h3) + f.h8*(19*g.h2) + (2*f.h9)*(19*g.h1)
  }

  function Row1(f: Limbs, g: Limbs): int {
    f.h0*g.h1 + f.h1*g.h0 + f.h2*(19*g.h9) + f.h3*(19*g.h8) + f.h4*(19*g.h7) +
    f.h5*(19*g.h6) + f.h6*(19*g.h5) + f.h7*(19*g.h4) + f.h8*(19*g.h3) + f.h9*(19*g.h2)
  }

  function Row2(f: Limbs, g: Limbs): int {
    f.h0*g.h2 + (2*f.h1)*g.h1 + f.h2*g.h0 + (2*f.h3)*(19*g.h9) + f.h4*(19*g.h8) +
    (2*f.h5)*(19*g.h7) + f.h6*(19*g.h6) + (2*f.h7)*(19*g.h5) + f.h8*(19*g.h4) + (2*f.h9)*(19*g.h3)
  }

  function Row3(f: Limbs, g: Limbs): int {
    f.h0*g.h3 + f.h1*g.h2 + f.h2*g.h1 + f.h3*g.h0 + f.h4*(19*g.h9) +
    f.h5*(19*g.h8) + f.h6*(19*g.h7) + f.h7*(19*g.h6) + f.h8*(19*g.h5) + f.h9*(19*g.h4)
  }

  function Row4(f: Limbs, g: Limbs): int {
    f.h0*g.h4 + (2*f.h1)*g.h3 + f.h2*g.h2 + (2*f.h3)*g.h1 + f.h4*g.h0 +
    (2*f.h5)*(19*g.h9) + f.h6*(19*g.h8) + (2*f.h7)*(19*g.h7) + f.h8*(19*g.h6) + (2*f.h9)*(19*g.h5)
  }

  function Row5(f: Limbs, g: Limbs): int {
    f.h0*g.h5 + f.h1*g.h4 + f.h2*g.h3 + f.h3*g.h2 + f.h4*g.h1 +
    f.h5*g.h0 + f.h6*(19*g.h9) + f.h7*(19*g.h8) + f.h8*(19*g.h7) + f.h9*(19*g.h6)
  }

  function Row6(f: Limbs, g: Limbs): int {
    f.h0*g.h6 + (2*f.h1)*g.h5 + f.h2*g.h4 + (2*f.h3)*g.h3 + f.h4*g.h2 +
    (2*f.h5)*g.h1 + f.h6*g.h0 + (2*f.h7)*(19*g.h9) + f.h8*(19*g.h8) + (2*f.h9)*(19*g.h7)
  }

  function Row7(f: Limbs, g: Limbs): int {
    f.h0*g.h7 + f.h1*g.h6 + f.h2*g.h5 + f.h3*g.h4 + f.h4*g.h3 +
    f.h5*g.h2 + f.h6*g.h1 + f.h7*g.h0 + f.h8*(19*g.h9) + f.h9*(19*g.h8)
  }

  function Row8(f: Limbs, g: Limbs): int {
    f.h0*g.h8 + (2*f.h1)*g.h7 + f.h2*g.h6 + (2*f.h3)*g.h5 + f.h4*g.h4 +
    (2*f.h5)*g.h3 + f.h6*g.h2 + (2*f.h7)*g.h1 + f.h8*g.h0 + (2*f.h9)*(19*g.h9)
  }

  function Row9(f: Limbs, g: Limbs): int {
    f.h0*g.h9 + f.h1*g.h8 + f.h2*g.h7 + f.h3*g.h6 + f.h4*g.h5 +
    f.h5*g.h4 + f.h6*g.h3 + f.h7*g.h2 + f.h8*g.h1 + f.h9*g.h0
  }

  function Rows(f: Limbs, g: Limbs): Limbs {
    Limbs(Row0(f, g), Row1(f, g), Row2(f, g), Row3(f, g), Row4(f, g),
          Row5(f, g), Row6(f, g), Row7(f, g), Row8(f, g), Row9(f, g))
  }

  lemma RowsAreColumns(f: Limbs, g: Limbs)
    ensures Rows(f, g) == Add(LowRows(f, g), HighRows(f, g))
  {}

  /** The row sums represent the product of the two values modulo P. */
  lemma RowsVal(f: Limbs, g: Limbs) returns (q: int)
    ensures Val(f)*Val(g) == Val(Rows(f, g)) + P*q
  {
    var low := LowRowsVal(f, g);
    var high := HighRowsVal(f, g);
    AddVal(LowRows(f, g), HighRows(f, g));
    Distribute(Val(f), g);
    RowsAreColumns(f, g);
    q := low + high;
  }

  // fe_sq computes the rows of f times f with each cross product taken once.

  lemma SquareRow0(f: Limbs)
    ensures Row0(f, f) ==
            f.h0*f.h0 + (2*f.h1)*(38*f.h9) + (2*f.h2)*(19*f.h8) + (2*f.h3)*(38*f.h7) + (2*f.h4)*(19*f.h6) +
              f.h5*(38*f.h5)
  {}

  lemma SquareRow1(f: Limbs)
    ensures Row1(f, f) ==
            (2*f.h0)*f.h1 + f.h2*(38*f.h9) + (2*f.h3)*(19*f.h8) + f.h4*(38*f.h7) + (2*f.h5)*(19*f.h6)
  {}

  lemma SquareRow2(f: Limbs)
    ensures Row2(f, f) ==
            (2*f.h0)*f.h2 + (2*f.h1)*f.h1 + (2*f.h3)*(38*f.h9) + (2*f.h4)*(19*f.h8) + (2*f.h5)*(38*f.h7) +
              f.h6*(19*f.h6)
  {}

  lemma SquareRow3(f: Limbs)
    ensures Row3(f, f) ==
            (2*f.h0)*f.h3 + (2*f.h1)*f.h2 + f.h4*(38*f.h9) + (2*f.h5)*(19*f.h8) + f.h6*(38*f.h7)
  {}

  lemma SquareRow4(f: Limbs)
    ensures Row4(f, f) ==
            (2*f.h0)*f.h4 + (2*f.h1)*(2*f.h3) + f.h2*f.h2 + (2*f.h5)*(38*f.h9) + (2*f.h6)*(19*f.h8) + f.h7*(38*f.h7)
  {}

  lemma SquareRow5(f: Limbs)
    ensures Row5(f, f) ==
            (2*f.h0)*f.h5 + (2*f.h1)*f.h4 + (2*f.h2)*f.h3 + f.h6*(38*f.h9) + (2*f.h7)*(19*f.h8)
  {}

  lemma SquareRow6(f: Limbs)
    ensures Row6(f, f) ==
            (2*f.h0)*f.h6 + (2*f.h1)*(2*f.h5) + (2*f.h2)*f.h4 + (2*f.h3)*f.h3 + (2*f.h7)*(38*f.h9) + f.h8*(19*f.h8)
  {}

  lemma SquareRow7(f: Limbs)
    ensures Row7(f, f) ==
            (2*f.h0)*f.h7 + (2*f.h1)*f.h6 + (2*f.h2)*f.h5 + (2*f.h3)*f.h4 + f.h8*(38*f.h9)
  {}

  lemma SquareRow8(f: Limbs)
    ensures Row8(f, f) ==
            (2*f.h0)*f.h8 + (2*f.h1)*(2*f.h7) + (2*f.h2)*f.h6 + (2*f.h3)*(2*f.h5) + f.h4*f.h4 + f.h9*(38*f.h9)
  {}

  lemma SquareRow9(f: Limbs)
    ensures Row9(f, f) ==
            (2*f.h0)*f.h9 + (2*f.h1)*f.h8 + (2*f.h2)*f.h7 + (2*f.h3)*f.h6 + f.h4*(2*f.h5)
  {}

}
