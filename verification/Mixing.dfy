/**
 The quarter steps of BLAKE2s and ChaCha20 undone: each is a bijection of four words,
 and that of BLAKE2s loses nothing of the two message words.
 */
module Mixing {
  import opened MachineInts
  import opened Bits
  import opened Words
  import opened Rows
  import opened WordBits
  import opened Blake2sCompress
  import ChaCha20

  /** Subtraction modulo 2^32 */
  function Sub(a: u32, b: u32): u32 { ((a as int - b as int) % 0x1_0000_0000) as u32 }

  lemma SubAdd(a: u32, b: u32)
    ensures Sub(Add(a, b), b) == a && Add(Sub(a, b), b) == a && Sub(Add(b, a), b) == a
  {}

  lemma XorBack(a: u32, b: u32)
    ensures Xor(Xor(a, b), b) == a && Xor(Xor(b, a), b) == a
  {
    Pow2Half();
    hide XorBits;
    XorTwice(a as int, b as int, 32);
    XorBitsCommute(a as int, b as int, 32);
  }

  lemma RotateBack(v: u32, n: nat)
    requires n <= 32
    ensures Rotl(Rotl(v, n), 32 - n) == v
  {
    hide Rotl;
    RotlSum(v, n, 32 - n);
    RotlAll(v);
  }

  lemma RotlAll(v: u32)
    ensures Rotl(v, 32) == v
  {
    Pow2Half();
    assert Pow2(0) == 1;
    hide Pow2;
  }

  // BLAKE2s.

  function GBack(r: Quad, x: u32, y: u32): Quad {
    var b := Xor(Rotl(r.b, 7), r.c);
    var c := Sub(r.c, r.d);
    var d := Xor(Rotl(r.d, 8), r.a);
    var a := Sub(Sub(r.a, y), b);
    var b := Xor(Rotl(b, 12), c);
    Quad(Sub(Sub(a, x), b), b, Sub(c, d), Xor(Rotl(d, 16), a))
  }

  /** The inner half of a step: add, xor, rotate by n, twice */
  function Half(q: Quad, x: u32, m: nat, n: nat): Quad
    requires m <= 32 && n <= 32
  {
    var a := Add(Add(q.a, q.b), x);
    var d := Rotl(Xor(q.d, a), m);
    var c := Add(q.c, d);
    Quad(a, Rotl(Xor(q.b, c), n), c, d)
  }

  function HalfBack(r: Quad, x: u32, m: nat, n: nat): Quad
    requires m <= 32 && n <= 32
  {
    var b := Xor(Rotl(r.b, 32 - n), r.c);
    Quad(Sub(Sub(r.a, x), b), b, Sub(r.c, r.d), Xor(Rotl(r.d, 32 - m), r.a))
  }

  lemma TurnBack(b: u32, c: u32, n: nat)
    requires n <= 32
    ensures Xor(Rotl(Rotl(Xor(b, c), n), 32 - n), c) == b
    ensures Rotl(Xor(Xor(Rotl(b, 32 - n), c), c), n) == b
  {
    hide Xor, Rotl;
    RotateBack(Xor(b, c), n);
    XorBack(b, c);
    XorBack(Rotl(b, 32 - n), c);
    RotateBack(b, 32 - n);
  }

  lemma SumBack(a: u32, b: u32, x: u32)
    ensures Sub(Sub(Add(Add(a, b), x), x), b) == a
    ensures Add(Add(Sub(Sub(a, x), b), b), x) == a
  {
    hide Add, Sub;
    SubAdd(Add(a, b), x);
    SubAdd(a, b);
    SubAdd(Sub(a, x), b);
    SubAdd(a, x);
  }

  lemma TwoHalves(q: Quad, x: u32, y: u32)
    ensures G(q, x, y) == Half(Half(q, x, 16, 20), y, 24, 25)
    ensures GBack(q, x, y) == HalfBack(HalfBack(q, y, 24, 25), x, 16, 20)
  {
    hide Add, Sub, Xor, Rotl;
  }

  /** For given message words, G is a bijection of the four words. */
  lemma GBijective(q: Quad, x: u32, y: u32)
    ensures GBack(G(q, x, y), x, y) == q
    ensures G(GBack(q, x, y), x, y) == q
  {
    hide Add, Sub, Xor, Rotl;
    var h, r := Half(q, x, 16, 20), G(q, x, y);
    TurnBack(h.b, r.c, 25);
    TurnBack(h.d, r.a, 24);
    SubAdd(h.c, r.d);
    SumBack(h.a, h.b, y);
    TurnBack(q.b, h.c, 20);
    TurnBack(q.d, h.a, 16);
    SubAdd(q.c, h.d);
    SumBack(q.a, q.b, x);
    var k := HalfBack(q, y, 24, 25);
    TurnBack(k.b, Sub(q.c, q.d), 20);
    TurnBack(k.d, k.a, 16);
    SubAdd(k.c, k.d);
    SumBack(k.a, GBack(q, x, y).b, x);
    TurnBack(q.b, q.c, 25);
    TurnBack(q.d, q.a, 24);
    SubAdd(q.c, q.d);
    SumBack(q.a, k.b, y);
  }

  /** For given words, G tells every two pairs of message words apart. */
  lemma GInjective(q: Quad, x: u32, y: u32, x': u32, y': u32)
    requires G(q, x, y) == G(q, x', y')
    ensures x == x' && y == y'
  {
    hide G, Half, HalfBack;
    var h, h' := Half(q, x, 16, 20), Half(q, x', 16, 20);
    TwoHalves(q, x, y);
    TwoHalves(q, x', y');
    Kept(h, h', y, y');
    MessageWord(q, x, x', 16, 20);
    HalfFirst(h, y, y', 24, 25);
  }

  /** The last word before the second half follows from the result. */
  lemma Kept(h: Quad, h': Quad, y: u32, y': u32)
    requires Half(h, y, 24, 25) == Half(h', y', 24, 25)
    ensures h.d == h'.d && h.b == h'.b
  {
    hide Add, Sub, Xor, Rotl;
    var r := Half(h, y, 24, 25);
    TurnBack(h.d, r.a, 24);
    TurnBack(h'.d, r.a, 24);
    TurnBack(h.b, r.c, 25);
    TurnBack(h'.b, r.c, 25);
  }

  /** The last word of a half step holds all of the message word. */
  lemma MessageWord(q: Quad, x: u32, x': u32, m: nat, n: nat)
    requires m <= 32 && n <= 32 && Half(q, x, m, n).d == Half(q, x', m, n).d
    ensures x == x'
  {
    hide Add, Sub, Xor, Rotl;
    var a, a' := Add(Add(q.a, q.b), x), Add(Add(q.a, q.b), x');
    RotateBack(Xor(q.d, a), m);
    RotateBack(Xor(q.d, a'), m);
    XorBack(a, q.d);
    XorBack(a', q.d);
    SubAdd(x, Add(q.a, q.b));
    SubAdd(x', Add(q.a, q.b));
  }

  lemma HalfFirst(q: Quad, x: u32, x': u32, m: nat, n: nat)
    requires m <= 32 && n <= 32 && Half(q, x, m, n).a == Half(q, x', m, n).a
    ensures x == x'
  {
    hide Add, Sub, Rotl, Xor;
    SubAdd(x, Add(q.a, q.b));
    SubAdd(x', Add(q.a, q.b));
  }

  // ChaCha20.

  /** The quarter round is two half steps without a message word. */
  lemma QuarterHalves(q: Quad)
    ensures ChaCha20.Quarter(q) == Half(Half(q, 0, 16, 12), 0, 8, 7)
  {
    AddNothing(Add(q.a, q.b));
    var h := Half(q, 0, 16, 12);
    AddNothing(Add(h.a, h.b));
    hide Add, Xor, Rotl;
  }

  lemma AddNothing(a: u32)
    ensures Add(a, 0) == a
  {}

  function QuarterBack(r: Quad): Quad { HalfBack(HalfBack(r, 0, 8, 7), 0, 16, 12) }

  lemma QuarterBijective(q: Quad)
    ensures QuarterBack(ChaCha20.Quarter(q)) == q
    ensures ChaCha20.Quarter(QuarterBack(q)) == q
  {
    QuarterHalves(q);
    QuarterHalves(QuarterBack(q));
    hide Add, Sub, Xor, Rotl, ChaCha20.Quarter;
    var h := Half(q, 0, 16, 12);
    var r := Half(h, 0, 8, 7);
    TurnBack(h.b, r.c, 7);
    TurnBack(h.d, r.a, 8);
    SubAdd(h.c, r.d);
    SumBack(h.a, h.b, 0);
    TurnBack(q.b, h.c, 12);
    TurnBack(q.d, h.a, 16);
    SubAdd(q.c, h.d);
    SumBack(q.a, q.b, 0);
    var k := HalfBack(q, 0, 8, 7);
    TurnBack(k.b, k.c, 12);
    TurnBack(k.d, k.a, 16);
    SubAdd(k.c, k.d);
    SumBack(k.a, QuarterBack(q).b, 0);
    TurnBack(q.b, q.c, 7);
    TurnBack(q.d, q.a, 8);
    SubAdd(q.c, q.d);
    SumBack(q.a, k.b, 0);
  }
}
