/**
 What a ladder step means on the curve y^2 = x^3 + 486662 x^2 + x: the doubling and the
 differential addition of Montgomery, as polynomials in the coordinates.
 */
module LadderLaws {
  import opened Bits
  import opened Modular
  import opened FieldLimbs
  import opened Field25519
  import opened Ladder

  /** a stands for the integer e in the field: it differs from e by a multiple of the prime. */
  ghost predicate Stands(a: int, e: int) { exists k: int :: Shifted(e, k) == a }

  function Shifted(e: int, k: int): int { e + P*k }

  lemma StandsAdd(a: int, x: int, b: int, y: int)
    requires Stands(a, x) && Stands(b, y)
    ensures Stands(FAdd(a, b), x + y)
  {
    var i: int :| Shifted(x, i) == a;
    var j: int :| Shifted(y, j) == b;
    assert Shifted(x + y, i + j - (a + b) / P) == FAdd(a, b);
  }

  lemma StandsSub(a: int, x: int, b: int, y: int)
    requires Stands(a, x) && Stands(b, y)
    ensures Stands(FSub(a, b), x - y)
  {
    var i: int :| Shifted(x, i) == a;
    var j: int :| Shifted(y, j) == b;
    assert Shifted(x - y, i - j - (a - b) / P) == FSub(a, b);
  }

  lemma StandsMul(a: int, x: int, b: int, y: int)
    requires Stands(a, x) && Stands(b, y)
    ensures Stands(FMul(a, b), x*y)
  {
    StandsTimes(a, x, b, y);
    var k: int :| Shifted(x*y, k) == a*b;
    var n := (a*b) / P;
    assert FMul(a, b) == a*b - P*n;
    assert Shifted(x*y, k - n) == FMul(a, b);
  }

  lemma Product(x: int, y: int, i: int, j: int)
    ensures (x + P*i)*(y + P*j) == x*y + P*(i*y + x*j + P*(i*j))
  {
    calc {
      (x + P*i)*(y + P*j);
      x*(y + P*j) + (P*i)*(y + P*j);
      x*y + P*(x*j) + (P*(i*y) + P*(P*(i*j)));
    }
  }

  /** Two numbers that stand for the same one stand for each other. */
  lemma StandsBack(a: int, e: int, b: int)
    requires Stands(a, e) && Stands(b, e)
    ensures Stands(a, b)
  {
    var i: int :| Shifted(e, i) == a;
    var j: int :| Shifted(e, j) == b;
    assert Shifted(b, i - j) == a;
  }

  /** A residue is determined by what it stands for. */
  lemma StandsOnce(a: int, b: int)
    requires Stands(a, b) && 0 <= a < P && 0 <= b < P
    ensures a == b
  {
    var k: int :| Shifted(b, k) == a;
  }

  function Square(a: int): int { a*a }

  lemma Same(a: int)
    ensures Stands(a, a)
  {
    assert Shifted(a, 0) == a;
  }

  lemma Reduced(x1: int, s: Pair)
    ensures var t := Step(x1, s); 0 <= t.x2 < P && 0 <= t.z2 < P
  {
    hide FAdd, FSub;
  }

  lemma DoublingX(x: int, z: int)
    ensures Square(x + z)*Square(x - z) == Square(x*x - z*z)
  {
    assert (x + z)*(x - z) == x*x - z*z;
    SquareProduct(x + z, x - z);
  }

  lemma SquareProduct(a: int, b: int)
    ensures Square(a)*Square(b) == Square(a*b)
  {
    assert (a*a)*(b*b) == (a*b)*(a*b);
  }

  lemma Squares(x: int, z: int)
    ensures Square(x + z) == x*x + 2*(x*z) + z*z && Square(x - z) == x*x - 2*(x*z) + z*z
  {}

  lemma DoublingZ(x: int, z: int)
    ensures var p, q := Square(x + z), Square(x - z);
      (p - q)*(p + 121665*(p - q)) == 4*(x*z)*(x*x + 486662*(x*z) + z*z)
  {
    Squares(x, z);
  }

  lemma DoubledX(x: int, z: int, AA: int, BB: int)
    requires Stands(AA, Square(x + z)) && Stands(BB, Square(x - z))
    ensures Stands(FMul(AA, BB), Square(x*x - z*z))
  {
    hide FMul, Stands, Square;
    StandsMul(AA, Square(x + z), BB, Square(x - z));
    DoublingX(x, z);
  }

  lemma DoubledZ(x: int, z: int, E: int, F: int)
    requires Stands(E, Square(x + z) - Square(x - z))
    requires Stands(F, Square(x + z) + 121665*(Square(x + z) - Square(x - z)))
    ensures Stands(FMul(E, F), 4*(x*z)*(x*x + 486662*(x*z) + z*z))
  {
    hide FMul, Stands, Square;
    var p, q := Square(x + z), Square(x - z);
    StandsMul(E, p - q, F, p + 121665*(p - q));
    DoublingZ(x, z);
  }

  lemma Added(x1: int, x: int, z: int, u: int, v: int, X: int, Z: int)
    requires Stands(X, (u - v)*(x + z) + (u + v)*(x - z)) && Stands(Z, (u - v)*(x + z) - (u + v)*(x - z))
    ensures Stands(FMul(X, X), 4*Square(x*u - z*v))
    ensures Stands(FMul(x1, FMul(Z, Z)), 4*x1*Square(x*v - z*u))
  {
    hide FAdd, FSub, FMul, Stands;
    var p, q := 2*(x*u - z*v), -2*(x*v - z*u);
    Crosses(x, z, u, v);
    StandsMul(X, p, X, p);
    StandsMul(Z, q, Z, q);
    Same(x1);
    StandsMul(x1, x1, FMul(Z, Z), q*q);
    TwiceSquared(x*u - z*v, 1);
    TwiceSquared(x*v - z*u, x1);
  }

  lemma Crosses(x: int, z: int, u: int, v: int)
    ensures (u - v)*(x + z) + (u + v)*(x - z) == 2*(x*u - z*v)
    ensures (u - v)*(x + z) - (u + v)*(x - z) == -2*(x*v - z*u)
  {}

  lemma TwiceSquared(w: int, f: int)
    ensures (2*w)*(2*w) == 4*Square(w) && f*((-2*w)*(-2*w)) == 4*f*Square(w)
  {}

  lemma Ends(x: int, z: int)
    ensures Stands(FAdd(x, z), x + z) && Stands(FSub(x, z), x - z)
  {
    Same(x);
    Same(z);
    StandsAdd(x, x, z, z);
    StandsSub(x, x, z, z);
  }

  /**
   One step of the ladder, and what it is on the curve: the first point is doubled, and the second
   becomes the sum of both, for points whose difference has coordinate x1.
   */
  ghost function Law(x1: int, s: Pair): (t: Pair)
    ensures Stands(t.x2, Square(s.x2*s.x2 - s.z2*s.z2))
    ensures Stands(t.z2, 4*(s.x2*s.z2)*(s.x2*s.x2 + 486662*(s.x2*s.z2) + s.z2*s.z2))
    ensures Stands(t.x3, 4*Square(s.x2*s.x3 - s.z2*s.z3))
    ensures Stands(t.z3, 4*x1*Square(s.x2*s.z3 - s.z2*s.x3))
  {
    var A, B := FAdd(s.x2, s.z2), FSub(s.x2, s.z2);
    var AA, BB := FMul(A, A), FMul(B, B);
    var E := FSub(AA, BB);
    var C, D := FAdd(s.x3, s.z3), FSub(s.x3, s.z3);
    var DA, CB := FMul(D, A), FMul(C, B);
    var a, b, c, d := s.x2 + s.z2, s.x2 - s.z2, s.x3 + s.z3, s.x3 - s.z3;
    Ends(s.x2, s.z2);
    Ends(s.x3, s.z3);
    StandsMul(A, a, A, a);
    StandsMul(B, b, B, b);
    DoubledX(s.x2, s.z2, AA, BB);
    StandsSub(AA, Square(a), BB, Square(b));
    Same(121665);
    StandsMul(121665, 121665, E, Square(a) - Square(b));
    StandsAdd(AA, Square(a), FMul(121665, E), 121665*(Square(a) - Square(b)));
    DoubledZ(s.x2, s.z2, E, FAdd(AA, FMul(121665, E)));
    StandsMul(D, d, A, a);
    StandsMul(C, c, B, b);
    StandsAdd(DA, d*a, CB, c*b);
    StandsSub(DA, d*a, CB, c*b);
    Added(x1, s.x2, s.z2, s.x3, s.z3, FAdd(DA, CB), FSub(DA, CB));
    Step(x1, s)
  }

  // The ladder of a scalar whose bits are known.

  /** No bit set: the first point stays at infinity, the second stays the point with coordinate u. */
  lemma {:induction false} Idle(k: nat, u: int, bits: nat, t: nat)
    requires t <= bits && forall i | t <= i < bits :: !Bit(k, i)
    ensures var r := Reference(k, u, bits, t);
      r.x2 == 1 && r.z2 == 0 && Stands(r.x3, u*r.z3)
    decreases bits - t
  {
    if t == bits {
      Same(u);
    } else {
      Idle(k, u, bits, t + 1);
      var r := Reference(k, u, bits, t + 1);
      IdleStep(u, r);
    }
  }

  lemma IdleStep(u: int, r: Pair)
    requires r.x2 == 1 && r.z2 == 0 && Stands(r.x3, u*r.z3)
    ensures var q := Step(u, r); q.x2 == 1 && q.z2 == 0 && Stands(q.x3, u*q.z3)
  {
    var q := Step(u, r);
    hide Step, Stands;
    LawIs(u, r);
    Reduced(u, r);
    StandsOnce(q.x2, 1);
    StandsOnce(q.z2, 0);
    Ratio(u, r.x3, r.z3, q.x3, q.z3);
  }

  lemma LawIs(x1: int, s: Pair)
    ensures Law(x1, s) == Step(x1, s)
  {
    hide Step;
  }

  /** x = u z gives 4 x^2 = u (4 u z^2). */
  lemma Ratio(u: int, x: int, z: int, x': int, z': int)
    requires Stands(x, u*z) && Stands(x', 4*Square(x)) && Stands(z', 4*u*Square(z))
    ensures Stands(x', u*z')
  {
    hide Stands, Square;
    StandsTimes(x, u*z, x, u*z);
    Same(4);
    StandsTimes(4, 4, x*x, (u*z)*(u*z));
    SquareIs(x);
    SquareIs(u*z);
    Through(x', 4*Square(x), 4*Square(u*z));
    Same(u);
    StandsTimes(u, u, z', 4*u*Square(z));
    RatioSides(u, z);
    StandsBack(x', 4*Square(u*z), u*z');
  }

  lemma SquareIs(a: int)
    ensures a*a == Square(a)
  {}

  lemma StandsTimes(a: int, x: int, b: int, y: int)
    requires Stands(a, x) && Stands(b, y)
    ensures Stands(a*b, x*y)
  {
    var i: int :| Shifted(x, i) == a;
    var j: int :| Shifted(y, j) == b;
    Product(x, y, i, j);
    assert Shifted(x*y, i*y + x*j + P*(i*j)) == a*b;
  }

  lemma Through(a: int, e: int, f: int)
    requires Stands(a, e) && Stands(e, f)
    ensures Stands(a, f)
  {
    var i: int :| Shifted(e, i) == a;
    var j: int :| Shifted(f, j) == e;
    assert Shifted(f, i + j) == a;
  }

  lemma RatioSides(u: int, z: int)
    ensures 4*Square(u*z) == u*(4*u*Square(z))
  {
    assert (u*z)*(u*z) == (u*u)*(z*z);
    assert u*(4*u*(z*z)) == 4*((u*u)*(z*z));
  }

  /** The scalar zero gives the point at infinity, and the scalar one the point itself, as ratios. */
  lemma Zero(u: int, bits: nat)
    ensures Reference(0, u, bits, 0).x2 == 1 && Reference(0, u, bits, 0).z2 == 0
  {
    forall i | 0 <= i < bits ensures !Bit(0, i) { NoBit(i); }
    Idle(0, u, bits, 0);
  }

  lemma One(u: int, bits: nat)
    requires bits > 0
    ensures var r := Reference(1, u, bits, 0); Stands(r.x2, u*r.z2)
  {
    forall i | 1 <= i < bits ensures !Bit(1, i) { NoBit(i - 1); }
    Idle(1, u, bits, 1);
    assert Bit(1, 0);
    hide Step, Stands;
    LastStep(u, Reference(1, u, bits, 1));
  }

  lemma LastStep(u: int, r: Pair)
    requires r.x2 == 1 && r.z2 == 0 && Stands(r.x3, u*r.z3)
    ensures var q := Exchange(Step(u, Exchange(r, true)), true); Stands(q.x2, u*q.z2)
  {
    var s := Exchange(r, true);
    var q := Step(u, s);
    hide Step, Stands;
    LawIs(u, s);
    assert s.x2*s.x3 - s.z2*s.z3 == r.x3 && s.x2*s.z3 - s.z2*s.x3 == -r.z3;
    assert Square(-r.z3) == Square(r.z3);
    Ratio(u, r.x3, r.z3, q.x3, q.z3);
  }
}
