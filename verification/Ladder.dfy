/**
 The Montgomery ladder of X25519: scalarmult in library/crypto/monocypher.c
 against the ladder of section 5 of RFC 7748.

 The reference swaps before and after every step.  The code swaps once per
 bit, by the difference of two neighbouring bits, and once more at the end.
 */
module Ladder {
  import opened MachineInts
  import opened Bits
  import opened Bytes
  import opened FieldLimbs
  import opened Modular
  import opened Field25519
  import opened FieldBytes

  /** Two projective points (x2 : z2) and (x3 : z3), as residues */
  datatype Pair = Pair(x2: int, z2: int, x3: int, z3: int)

  function Exchange(s: Pair, b: bool): Pair {
    if b then Pair(s.x3, s.z3, s.x2, s.z2) else s
  }

  /** One ladder step: double the first point, add it to the second (RFC 7748, section 5) */
  function Step(x1: int, s: Pair): Pair {
    var A := FAdd(s.x2, s.z2);
    var AA := FMul(A, A);
    var B := FSub(s.x2, s.z2);
    var BB := FMul(B, B);
    var E := FSub(AA, BB);
    var C := FAdd(s.x3, s.z3);
    var D := FSub(s.x3, s.z3);
    var DA := FMul(D, A);
    var CB := FMul(C, B);
    var X := FAdd(DA, CB);
    var Z := FSub(DA, CB);
    Pair(FMul(AA, BB), FMul(E, FAdd(AA, FMul(121665, E))), FMul(X, X), FMul(x1, FMul(Z, Z)))
  }

  /** scalar_bit: bit i & 7 of byte i >> 3 */
  function ScalarBit(s: seq<byte>, i: nat): bool
    requires i / 8 < |s|
  {
    Bit(s[i / 8] as int, i % 8)
  }

  /** scalar_bit reads the bits of the little-endian number. */
  lemma {:induction false} ScalarBits(s: seq<byte>, i: nat)
    requires i / 8 < |s|
    ensures ScalarBit(s, i) == Bit(LE(s), i)
  {
    var x, r := s[0] as int, LE(s[1..]);
    assert LE(s) == x + 0x100*r;
    hide Pow2, Bit, LE;
    Pow2Byte();
    if i < 8 {
      LowBits(x, r, 8, i);
    } else {
      HighBits(x, r, 8, i - 8);
      ScalarBits(s[1..], i - 8);
    }
  }

  /** The state of the reference ladder over `bits` bits of k, once the bits from t upward are used */
  ghost function Reference(k: nat, x1: int, bits: nat, t: nat): Pair
    requires t <= bits
    decreases bits - t
  {
    if t == bits then Pair(1, 0, x1, 1)
    else Exchange(Step(x1, Exchange(Reference(k, x1, bits, t + 1), Bit(k, t))), Bit(k, t))
  }

  /** BB + 121666 E stands for AA + 121665 E. */
  lemma DoublingConstant(AA: int, BB: int)
    ensures var E := FSub(AA, BB); FAdd(BB, FMul(E, 121666 % P)) == FAdd(AA, FMul(121665, E))
  {
    var E := FSub(AA, BB);
    var q := (AA - BB) / P;
    assert E == AA - BB - P*q;
    var m, n := (E * 121666) / P, (121665 * E) / P;
    assert FMul(E, 121666 % P) == 121666*E - P*m && FMul(121665, E) == 121665*E - P*n;
    ModShift(BB + 121666*E - P*m, AA + 121665*E - P*n, -q + n - m, P);
  }

  ghost function Residues(x2: array<i32>, z2: array<i32>, x3: array<i32>, z3: array<i32>): Pair
    requires x2.Length == 10 && z2.Length == 10 && x3.Length == 10 && z3.Length == 10
    reads x2, z2, x3, z3
  {
    Pair(Residue(x2), Residue(z2), Residue(x3), Residue(z3))
  }

  /** Seven distinct limb arrays */
  predicate Separate(x1: array<i32>, x2: array<i32>, z2: array<i32>, x3: array<i32>, z3: array<i32>,
                     t0: array<i32>, t1: array<i32>)
  {
    && x1 != x2 && x1 != z2 && x1 != x3 && x1 != z3 && x1 != t0 && x1 != t1
    && x2 != z2 && x2 != x3 && x2 != z3 && x2 != t0 && x2 != t1
    && z2 != x3 && z2 != z3 && z2 != t0 && z2 != t1
    && x3 != z3 && x3 != t0 && x3 != t1
    && z3 != t0 && z3 != t1
    && t0 != t1
    && x1.Length == 10 && x2.Length == 10 && z2.Length == 10 && x3.Length == 10 && z3.Length == 10
    && t0.Length == 10 && t1.Length == 10
  }

  method AddTight(h: array<i32>, f: array<i32>, g: array<i32>)
    requires h.Length == 10 && f.Length == 10 && g.Length == 10
    requires Tight(f) && Tight(g)
    modifies h
    ensures Loose(h) && Residue(h) == FAdd(old(Residue(f)), old(Residue(g)))
  {
    hide Val;
    TightSumIsLoose(LimbsOf(f), LimbsOf(g));
    FeAdd(h, f, g);
  }

  method SubTight(h: array<i32>, f: array<i32>, g: array<i32>)
    requires h.Length == 10 && f.Length == 10 && g.Length == 10
    requires Tight(f) && Tight(g)
    modifies h
    ensures Loose(h) && Residue(h) == FSub(old(Residue(f)), old(Residue(g)))
  {
    hide Val;
    TightSumIsLoose(LimbsOf(f), LimbsOf(g));
    FeSub(h, f, g);
  }

  lemma TightIsLoose(f: array<i32>)
    requires f.Length == 10 && Tight(f)
    ensures Loose(f)
  {}

  /** The body of the loop after the swaps, in place and in the order of the code */
  method LadderStep(x1: array<i32>, x2: array<i32>, z2: array<i32>, x3: array<i32>, z3: array<i32>,
                    t0: array<i32>, t1: array<i32>)
    requires Separate(x1, x2, z2, x3, z3, t0, t1)
    requires Tight(x1) && Tight(x2) && Tight(z2) && Tight(x3) && Tight(z3)
    modifies x2, z2, x3, z3, t0, t1
    ensures Tight(x2) && Tight(z2) && Tight(x3) && Tight(z3)
    ensures Residues(x2, z2, x3, z3) == Step(Residue(x1), old(Residues(x2, z2, x3, z3)))
  {
    hide Residue, Tight, Loose, FAdd, FSub, FMul;
    SubTight(t0, x3, z3);
    SubTight(t1, x2, z2);
    AddTight(x2, x2, z2);
    AddTight(z2, x3, z3);
    FeMul(z3, t0, x2);
    FeMul(z2, z2, t1);
    FeSq(t0, t1);
    FeSq(t1, x2);
    AddTight(x3, z3, z2);
    SubTight(z2, z3, z2);
    TightIsLoose(t1);
    TightIsLoose(t0);
    FeMul(x2, t1, t0);
    DoublingConstant(Residue(t1), Residue(t0));
    SubTight(t1, t1, t0);
    FeSq(z2, z2);
    FeMulSmall(z3, t1, 121666);
    FeSq(x3, x3);
    AddTight(t0, t0, z3);
    TightIsLoose(x1);
    TightIsLoose(z2);
    FeMul(z3, x1, z2);
    FeMul(z2, t1, t0);
  }

  /** The deferred swap: one exchange by the difference of neighbouring bits, then the step. */
  lemma DeferredSwap(k: nat, x1: int, bits: nat, t: nat, swap: bool)
    requires t < bits
    ensures var b := Bit(k, t);
            Step(x1, Exchange(Exchange(Reference(k, x1, bits, t + 1), swap), swap != b))
            == Exchange(Reference(k, x1, bits, t), b)
  {
    hide Step;
  }

  method LadderLoop(scalar: seq<byte>, nbBits: nat, x1: array<i32>, x2: array<i32>, z2: array<i32>,
                    x3: array<i32>, z3: array<i32>, t0: array<i32>, t1: array<i32>)
    requires |scalar| == 32 && nbBits <= 256
    requires Separate(x1, x2, z2, x3, z3, t0, t1)
    requires Tight(x1) && Tight(x2) && Tight(z2) && Tight(x3) && Tight(z3)
    requires Residues(x2, z2, x3, z3) == Pair(1, 0, Residue(x1), 1)
    modifies x2, z2, x3, z3, t0, t1
    ensures Tight(x2) && Tight(z2) && Tight(x3) && Tight(z3)
    ensures Residues(x2, z2, x3, z3) == Reference(LE(scalar), Residue(x1), nbBits, 0)
  {
    hide Tight, Residue, Residues, Step, LE, Bit, ScalarBit;
    ghost var k, u := LE(scalar), Residue(x1);
    var swap := false;
    for pos := nbBits downto 0
      invariant Tight(x2) && Tight(z2) && Tight(x3) && Tight(z3)
      invariant Residues(x2, z2, x3, z3) == Exchange(Reference(k, u, nbBits, pos), swap)
    {
      var b := ScalarBit(scalar, pos);
      ScalarBits(scalar, pos);
      DeferredSwap(k, u, nbBits, pos, swap);
      CswapBoth(x2, z2, x3, z3, swap != b);
      swap := b;
      LadderStep(x1, x2, z2, x3, z3, t0, t1);
    }
    CswapBoth(x2, z2, x3, z3, swap);
  }

  /**
   The scalar multiplication up to the final inversion: the projective point
   (x2 : z2) is that of the reference ladder, for every scalar and every u.
   */
  method Scalarmult(scalar: seq<byte>, p: seq<byte>, nbBits: nat) returns (x2: array<i32>, z2: array<i32>)
    requires |scalar| == 32 && |p| == 32 && nbBits <= 256
    ensures x2.Length == 10 && z2.Length == 10 && Tight(x2) && Tight(z2)
    ensures var r := Reference(LE(scalar), Decoded(p), nbBits, 0);
            Residue(x2) == r.x2 && Residue(z2) == r.z2
  {
    hide Tight, Residue, LimbsOf, LE, Reference, Decoded;
    var x1 := new i32[10];
    x2, z2 := new i32[10], new i32[10];
    var x3, z3, t0, t1 := new i32[10], new i32[10], new i32[10], new i32[10];
    assert Separate(x1, x2, z2, x3, z3, t0, t1);
    FeFromBytes(x1, p);
    FeConst(x2, 1);
    FeConst(z2, 0);
    FeCopy(x3, x1);
    FeConst(z3, 1);
    Copied(x3, x1);
    LadderLoop(scalar, nbBits, x1, x2, z2, x3, z3, t0, t1);
  }

  lemma Copied(h: array<i32>, f: array<i32>)
    requires h.Length == 10 && f.Length == 10 && LimbsOf(h) == LimbsOf(f)
    ensures Residue(h) == Residue(f) && Tight(h) == Tight(f)
  {}

  method CswapBoth(x2: array<i32>, z2: array<i32>, x3: array<i32>, z3: array<i32>, b: bool)
    requires x2.Length == 10 && z2.Length == 10 && x3.Length == 10 && z3.Length == 10
    requires x2 != z2 && x2 != x3 && x2 != z3 && z2 != x3 && z2 != z3 && x3 != z3
    requires Tight(x2) && Tight(z2) && Tight(x3) && Tight(z3)
    modifies x2, z2, x3, z3
    ensures Tight(x2) && Tight(z2) && Tight(x3) && Tight(z3)
    ensures Residues(x2, z2, x3, z3) == old(Exchange(Residues(x2, z2, x3, z3), b))
  {
    hide Val, TightLimbs;
    FeCswap(x2, x3, b);
    FeCswap(z2, z3, b);
  }
}
