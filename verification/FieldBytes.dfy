/**
 Field elements to and from their 32-byte encoding: fe_frombytes and
 fe_tobytes of library/crypto/monocypher.c.
 */
module FieldBytes {
  import opened MachineInts
  import opened Bytes
  import opened FieldLimbs
  import opened Modular
  import opened Field25519

  const TWO_255: int := 0x8000_0000_0000_0000_0000_0000_0000_0000_0000_0000_0000_0000_0000_0000_0000_0000

  // Decoding.

  /** The residue a 32-byte string stands for: the top bit is ignored. */
  ghost function Decoded(s: seq<byte>): int { LE(s) % TWO_255 % P }

  /** The ten loads of fe_frombytes, as limbs */
  function Loads(s: seq<byte>): (t: Limbs)
    requires |s| == 32
    ensures Bounded(t, 0x4000_0000_0000_0000, 0x4000_0000_0000_0000)
  {
    Limbs(Load32(s, 0) as int, Load24(s, 4) as int * 64, Load24(s, 7) as int * 32, Load24(s, 10) as int * 8,
          Load24(s, 13) as int * 4, Load32(s, 16) as int, Load24(s, 20) as int * 128, Load24(s, 23) as int * 32,
          Load24(s, 26) as int * 16, Load24(s, 29) as int % 0x80_0000 * 4)
  }

  /** Sixteen bytes, read as one 32-bit and four 24-bit words */
  lemma HalfLE(s: seq<byte>, i: nat)
    requires i + 16 <= |s|
    ensures LE(s[i..]) == Load32(s, i) as int
                          + 0x1_0000_0000 * Load24(s, i + 4) as int
                          + 0x100_0000_0000_0000 * Load24(s, i + 7) as int
                          + 0x1_0000_0000_0000_0000_0000 * Load24(s, i + 10) as int
                          + 0x100_0000_0000_0000_0000_0000_0000 * Load24(s, i + 13) as int
                          + 0x1_0000_0000_0000_0000_0000_0000_0000_0000 * LE(s[i + 16..])
  {
    Load32LE(s, i);
    Load24LE(s, i + 4);
    Load24LE(s, i + 7);
    Load24LE(s, i + 10);
    Load24LE(s, i + 13);
  }

  lemma LoadsSum(s: seq<byte>)
    requires |s| == 32
    ensures LE(s) == Val(Loads(s)) + TWO_255*(Load24(s, 29) as int / 0x80_0000)
  {
    assert s[0..] == s && s[32..] == [];
    HalfLE(s, 0);
    HalfLE(s, 16);
  }

  lemma LoadsVal(s: seq<byte>)
    requires |s| == 32
    ensures Val(Loads(s)) == LE(s) % TWO_255
  {
    LoadsSum(s);
    ModUnique(LE(s), Val(Loads(s)), Load24(s, 29) as int / 0x80_0000, TWO_255);
  }

  /** Decoding ignores the top bit and accepts every 32-byte string. */
  method FeFromBytes(h: array<i32>, s: seq<byte>)
    requires h.Length == 10 && |s| == 32
    modifies h
    ensures Tight(h)
    ensures Residue(h) == Decoded(s)
  {
    var t0 := Load32(s, 0) as i64;
    var t1 := (Load24(s, 4) * 64) as i64;
    var t2 := (Load24(s, 7) * 32) as i64;
    var t3 := (Load24(s, 10) * 8) as i64;
    var t4 := (Load24(s, 13) * 4) as i64;
    var t5 := Load32(s, 16) as i64;
    var t6 := (Load24(s, 20) * 128) as i64;
    var t7 := (Load24(s, 23) * 32) as i64;
    var t8 := (Load24(s, 26) * 16) as i64;
    var t9 := (Load24(s, 29) % 0x80_0000 * 4) as i64;
    assert Loads(s) == Limbs(t0 as int, t1 as int, t2 as int, t3 as int, t4 as int,
                             t5 as int, t6 as int, t7 as int, t8 as int, t9 as int);
    Store(h, t0, t1, t2, t3, t4, t5, t6, t7, t8, t9);
    LoadsVal(s);
  }

  // Encoding.  The limbs are handled in pairs of 26 + 25 bits, so the partial
  // sums of the two carry loops have the weights 1, 2^51, 2^102, ...

  ghost function Weight(i: nat): (w: int)
    ensures w > 0
  {
    if i == 0 then 1 else 0x8_0000_0000_0000*Weight(i - 1)
  }

  ghost function Part(t: seq<i32>, i: nat): int
    requires 2*i <= |t|
  {
    if i == 0 then 0
    else Part(t, i - 1) + Weight(i - 1)*(t[2*i - 2] as int + 0x400_0000*(t[2*i - 1] as int))
  }

  lemma PartVal(t: seq<i32>)
    requires |t| == 10
    ensures Part(t, 5) == Val(Limbs(t[0] as int, t[1] as int, t[2] as int, t[3] as int, t[4] as int,
                                    t[5] as int, t[6] as int, t[7] as int, t[8] as int, t[9] as int))
    ensures Weight(5) == TWO_255
  {
    assert Weight(1) == 0x8_0000_0000_0000;
    assert Weight(2) == 0x8_0000_0000_0000*Weight(1);
    assert Weight(3) == 0x8_0000_0000_0000*Weight(2);
    assert Weight(4) == 0x8_0000_0000_0000*Weight(3);
    assert Part(t, 1) == t[0] as int + 0x400_0000*(t[1] as int);
    assert Part(t, 2) == Part(t, 1) + Weight(1)*(t[2] as int + 0x400_0000*(t[3] as int));
    assert Part(t, 3) == Part(t, 2) + Weight(2)*(t[4] as int + 0x400_0000*(t[5] as int));
    assert Part(t, 4) == Part(t, 3) + Weight(3)*(t[6] as int + 0x400_0000*(t[7] as int));
  }

  lemma {:induction false} PartPrefix(t: seq<i32>, u: seq<i32>, i: nat)
    requires 2*i <= |t| && 2*i <= |u| && t[..2*i] == u[..2*i]
    ensures Part(t, i) == Part(u, i)
  {
    if i > 0 {
      assert t[..2*i][..2*(i - 1)] == u[..2*i][..2*(i - 1)];
      assert t[..2*i][2*i - 2] == u[..2*i][2*i - 2] && t[..2*i][2*i - 1] == u[..2*i][2*i - 1];
      PartPrefix(t, u, i - 1);
    }
  }

  /** Limbs reduced to their unsigned range */
  predicate Reduced(t: seq<i32>, i: nat)
    requires 2*i <= |t|
  {
    forall k | 0 <= k < i :: 0 <= t[2*k] < 0x400_0000 && 0 <= t[2*k + 1] < 0x200_0000
  }

  lemma {:induction false} PartRange(t: seq<i32>, i: nat)
    requires 2*i <= |t| && Reduced(t, i)
    ensures 0 <= Part(t, i) < Weight(i)
  {
    if i > 0 {
      PartRange(t, i - 1);
      var w, x := Weight(i - 1), t[2*i - 2] as int + 0x400_0000*(t[2*i - 1] as int);
      assert t[2*(i - 1)] == t[2*i - 2] && t[2*(i - 1) + 1] == t[2*i - 1];
      Scaled(w, x, 0x8_0000_0000_0000);
    }
  }

  lemma Scaled(w: int, x: int, n: int)
    requires w > 0 && 0 <= x < n
    ensures 0 <= w*x <= n*w - w
  {
    assert w*(n - 1 - x) >= 0;
    assert w*(n - 1 - x) == n*w - w - w*x;
  }

  /** One pair of limbs of the sign computation: q stays the floor of the partial sum by its weight. */
  lemma FloorStep(y: int, w: int, q: int, a: int, b: int, q': int)
    requires w > 0 && 0 <= y - w*q < w
    requires q' == ((q + a) / 0x400_0000 + b) / 0x200_0000
    ensures 0 <= (y + w*(a + 0x400_0000*b)) - (0x8_0000_0000_0000*w)*q' < 0x8_0000_0000_0000*w
  {
    var x := a + 0x400_0000*b + q - 0x8_0000_0000_0000*q';
    assert 0 <= x < 0x8_0000_0000_0000;
    Scaled(w, x, 0x8_0000_0000_0000);
    calc {
      y + w*(a + 0x400_0000*b) - (0x8_0000_0000_0000*w)*q';
      y - w*q + w*(a + 0x400_0000*b + q - 0x8_0000_0000_0000*q');
    }
  }

  /** One pair of limbs of the final carry: the value is conserved. */
  lemma CarryStep(p: int, w: int, q: int, a: int, b: int, low: int, high: int, q': int, total: int)
    requires p + w*q == total
    requires a + q + 0x400_0000*b == low + 0x400_0000*high + 0x8_0000_0000_0000*q'
    ensures p + w*(low + 0x400_0000*high) + (0x8_0000_0000_0000*w)*q' == total + w*(a + 0x400_0000*b)
  {
    calc {
      p + w*(low + 0x400_0000*high) + (0x8_0000_0000_0000*w)*q';
      p + w*(low + 0x400_0000*high + 0x8_0000_0000_0000*q');
      p + w*(a + q + 0x400_0000*b);
      p + w*q + w*(a + 0x400_0000*b);
    }
  }

  lemma SignFacts(f: Limbs, q: int)
    requires TightLimbs(f) && q == (19*f.h9 + 0x100_0000) / 0x200_0000
    ensures Within(q, 16)
    ensures Val(f) >= 0 ==> 0 <= q + Val(f) < TWO_255
    ensures Val(f) < 0 ==> -TWO_255 <= q + Val(f) < 0
    ensures Within(Val(f), P - 1)
  {}

  predicate Small(t: seq<i32>) {
    forall k | 0 <= k < |t| :: Within(t[k] as int, 36909875)
  }

  /** The first loop of fe_tobytes: q becomes the floor of the value by 2^255. */
  method FloorLoop(t: array<i32>, q0: i32) returns (q: i32)
    requires t.Length == 10 && Small(t[..]) && Within(q0 as int, 16)
    ensures 0 <= q0 as int + Part(t[..], 5) - Weight(5)*(q as int) < Weight(5)
  {
    q := q0;
    for i := 0 to 5
      invariant Within(q as int, 16)
      invariant 0 <= q0 as int + Part(t[..], i) - Weight(i)*(q as int) < Weight(i)
    {
      var a, b := t[2*i], t[2*i + 1];
      assert a == t[..][2*i] && b == t[..][2*i + 1];
      ghost var q1, y := q as int, q0 as int + Part(t[..], i);
      q := (q + a) / 0x400_0000;
      q := (q + b) / 0x200_0000;
      FloorStep(y, Weight(i), q1, a as int, b as int, q as int);
      assert Part(t[..], i + 1) == Part(t[..], i) + Weight(i)*(a as int + 0x400_0000*(b as int));
    }
  }

  lemma FloorIsSign(v: int, q0: int, q: int)
    requires v >= 0 ==> 0 <= q0 + v < TWO_255
    requires v < 0 ==> -TWO_255 <= q0 + v < 0
    requires 0 <= q0 + v - TWO_255*q < TWO_255
    ensures q == if v < 0 then -1 else 0
  {}

  /** The sign of the value */
  method Sign(t: array<i32>) returns (q: i32)
    requires t.Length == 10 && Tight(t)
    ensures q == if Val(LimbsOf(t)) < 0 then -1 else 0
  {
    hide Val, Part, Weight;
    ghost var v := Val(LimbsOf(t));
    var q0 := (19 * t[9] + 0x100_0000) / 0x200_0000;
    SignFacts(LimbsOf(t), q0 as int);
    q := FloorLoop(t, q0);
    assert v == Part(t[..], 5) && Weight(5) == TWO_255 by { PartVal(t[..]); }
    FloorIsSign(v, q0 as int, q as int);
  }

  method CarryPair(a: i32, b: i32, c: i32) returns (low: i32, high: i32, c': i32)
    requires Within(a as int, 36909875) && Within(b as int, 36909875) && Within(c as int, 19)
    ensures a as int + c as int + 0x400_0000*(b as int)
         == low as int + 0x400_0000*(high as int) + 0x8_0000_0000_0000*(c' as int)
    ensures 0 <= low < 0x400_0000 && 0 <= high < 0x200_0000 && Within(c' as int, 19)
  {
    low := a + c;
    c' := low / 0x400_0000;
    low := low - c' * 0x400_0000;
    high := b + c';
    c' := high / 0x200_0000;
    high := high - c' * 0x200_0000;
  }

  lemma CarryLoopStep(t: seq<i32>, u: seq<i32>, o: seq<i32>, i: nat, c0: int, c: int, c': int)
    requires i < 5 && |t| == |u| == |o| == 10
    requires u == t[2*i := u[2*i]][2*i + 1 := u[2*i + 1]]
    requires o[2*i] as int + c + 0x400_0000*(o[2*i + 1] as int)
          == u[2*i] as int + 0x400_0000*(u[2*i + 1] as int) + 0x8_0000_0000_0000*c'
    requires Part(t, i) + Weight(i)*c == c0 + Part(o, i)
    ensures Part(u, i + 1) + Weight(i + 1)*c' == c0 + Part(o, i + 1)
  {
    PartPrefix(t, u, i);
    CarryStep(Part(t, i), Weight(i), c, o[2*i] as int, o[2*i + 1] as int,
              u[2*i] as int, u[2*i + 1] as int, c', c0 + Part(o, i));
  }

  /** The second loop of fe_tobytes: carry c through, dropping what leaves at 2^255 */
  method CarryThrough(t: array<i32>, c0: i32) returns (c: i32)
    requires t.Length == 10 && Small(t[..]) && Within(c0 as int, 19)
    modifies t
    ensures Reduced(t[..], 5)
    ensures Part(t[..], 5) + Weight(5)*(c as int) == c0 as int + old(Part(t[..], 5))
  {
    ghost var o := t[..];
    c := c0;
    for i := 0 to 5
      invariant Within(c as int, 19)
      invariant forall k | 2*i <= k < 10 :: t[k] == o[k]
      invariant Reduced(t[..], i)
      invariant Part(t[..], i) + Weight(i)*(c as int) == c0 as int + Part(o, i)
    {
      ghost var before, c1 := t[..], c as int;
      var low, high;
      low, high, c := CarryPair(t[2*i], t[2*i + 1], c);
      t[2*i], t[2*i + 1] := low, high;
      CarryLoopStep(before, t[..], o, i, c0 as int, c1, c as int);
    }
  }

  /** Eight words, written out */
  lemma EightWords(w0: u32, w1: u32, w2: u32, w3: u32, w4: u32, w5: u32, w6: u32, w7: u32)
    ensures WordsVal([w0, w1, w2, w3, w4, w5, w6, w7])
         == w0 as int + 0x1_0000_0000*(w1 as int) + 0x1_0000_0000_0000_0000*(w2 as int)
            + 0x1_0000_0000_0000_0000_0000_0000*(w3 as int)
            + 0x1_0000_0000_0000_0000_0000_0000_0000_0000
              * (w4 as int + 0x1_0000_0000*(w5 as int) + 0x1_0000_0000_0000_0000*(w6 as int)
                 + 0x1_0000_0000_0000_0000_0000_0000*(w7 as int))
  {
    var ws := [w0, w1, w2, w3, w4, w5, w6, w7];
    assert ws[1..][1..] == ws[2..] && ws[2..][1..] == ws[3..] && ws[3..][1..] == ws[4..];
    assert ws[4..] == [w4, w5, w6, w7];
    FourWords(w4, w5, w6, w7);
    assert WordsVal(ws[3..]) == w3 as int + 0x1_0000_0000*WordsVal(ws[4..]);
    assert WordsVal(ws[2..]) == w2 as int + 0x1_0000_0000*WordsVal(ws[3..]);
    assert WordsVal(ws[1..]) == w1 as int + 0x1_0000_0000*WordsVal(ws[2..]);
  }

  /** The shifts of the eight stores split each limb between two words and lose nothing. */
  lemma PackVal(t: Limbs, w: Limbs)
    requires w.h0 == t.h0 + t.h1 % 0x40 * 0x400_0000
    requires w.h1 == t.h1 / 0x40 + t.h2 % 0x2000 * 0x8_0000
    requires w.h2 == t.h2 / 0x2000 + t.h3 % 0x8_0000 * 0x2000
    requires w.h3 == t.h3 / 0x8_0000 + t.h4 * 0x40
    requires w.h4 == t.h5 + t.h6 % 0x80 * 0x200_0000
    requires w.h5 == t.h6 / 0x80 + t.h7 % 0x2000 * 0x8_0000
    requires w.h6 == t.h7 / 0x2000 + t.h8 % 0x10_0000 * 0x1000
    requires w.h7 == t.h8 / 0x10_0000 + t.h9 * 0x40
    ensures w.h0 + 0x1_0000_0000*w.h1 + 0x1_0000_0000_0000_0000*w.h2 + 0x1_0000_0000_0000_0000_0000_0000*w.h3
            + 0x1_0000_0000_0000_0000_0000_0000_0000_0000
              * (w.h4 + 0x1_0000_0000*w.h5 + 0x1_0000_0000_0000_0000*w.h6 + 0x1_0000_0000_0000_0000_0000_0000*w.h7)
         == Val(t)
  {}

  /** The eight stores of fe_tobytes, once the limbs are in their unsigned range */
  method StoreLimbs(t: array<i32>) returns (s: seq<byte>)
    requires t.Length == 10 && Reduced(t[..], 5)
    ensures |s| == 32 && LE(s) == Val(LimbsOf(t))
  {
    hide Val, LE, WordsVal, Store32All;
    ghost var u := t[..];
    assert 0 <= u[2*0] && 0 <= u[2*1] && 0 <= u[2*2] && 0 <= u[2*3] && 0 <= u[2*4];
    var t0, t1, t2, t3, t4 := t[0] as u32, t[1] as u32, t[2] as u32, t[3] as u32, t[4] as u32;
    var t5, t6, t7, t8, t9 := t[5] as u32, t[6] as u32, t[7] as u32, t[8] as u32, t[9] as u32;
    var w0, w1 := t0 + t1 % 0x40 * 0x400_0000, t1 / 0x40 + t2 % 0x2000 * 0x8_0000;
    var w2, w3 := t2 / 0x2000 + t3 % 0x8_0000 * 0x2000, t3 / 0x8_0000 + t4 * 0x40;
    var w4, w5 := t5 + t6 % 0x80 * 0x200_0000, t6 / 0x80 + t7 % 0x2000 * 0x8_0000;
    var w6, w7 := t7 / 0x2000 + t8 % 0x10_0000 * 0x1000, t8 / 0x10_0000 + t9 * 0x40;
    s := Store32All([w0, w1, w2, w3, w4, w5, w6, w7]);
    Store32AllLE([w0, w1, w2, w3, w4, w5, w6, w7]);
    EightWords(w0, w1, w2, w3, w4, w5, w6, w7);
    PackVal(LimbsOf(t), Limbs(w0 as int, w1 as int, w2 as int, w3 as int, w4 as int,
                              w5 as int, w6 as int, w7 as int, 0, 0));
  }

  lemma Canonical(v: int, q: int, c: int, w: int)
    requires Within(v, P - 1) && q == (if v < 0 then -1 else 0)
    requires w + TWO_255*c == 19*q + v && 0 <= w < TWO_255
    ensures w == v % P
  {
    ModUnique(v, w, if v < 0 then -1 else 0, P);
  }

  /** Encoding writes the one number below P that the limbs stand for. */
  method FeToBytes(h: array<i32>) returns (s: seq<byte>)
    requires h.Length == 10 && Tight(h)
    ensures |s| == 32 && LE(s) == Residue(h)
  {
    hide Val, Part, Weight;
    var t := new i32[10];
    FeCopy(t, h);
    ghost var f := LimbsOf(h);
    assert LimbsOf(t) == f;
    SignFacts(f, (19*f.h9 + 0x100_0000) / 0x200_0000);
    var q := Sign(t);
    assert Small(t[..]);
    assert Part(t[..], 5) == Val(f) && Weight(5) == TWO_255 by { PartVal(t[..]); }
    var c := CarryThrough(t, q * 19);
    s := StoreLimbs(t);
    PartRange(t[..], 5);
    assert Part(t[..], 5) == LE(s) by { PartVal(t[..]); }
    Canonical(Val(f), q as int, c as int, LE(s));
  }

  lemma AlreadyCanonical(x: int)
    requires 0 <= x < P
    ensures x % TWO_255 % P == x
  {
    ModUnique(x, x, 0, TWO_255);
    ModUnique(x, x, 0, P);
  }

  /** Decoding then encoding clears the top bit and reduces modulo P. */
  method Normalize(s: seq<byte>) returns (r: seq<byte>)
    requires |s| == 32
    ensures |r| == 32 && LE(r) == Decoded(s)
    ensures LE(s) < P ==> r == s
  {
    hide Val, LE, TightLimbs;
    var h := new i32[10];
    FeFromBytes(h, s);
    r := FeToBytes(h);
    if LE(s) < P {
      AlreadyCanonical(LE(s));
      LEInjective(r, s);
    }
  }
}
