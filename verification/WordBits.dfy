/**
 Words as bit vectors: another definition of Xor, Add and Rotl, by operations of the
 bit vector type.
 */
module WordBits {
  import opened MachineInts
  import opened Bits
  import opened Modular
  import opened Words

  // The operations by name, so that a proof can do without their meaning.

  function Half(x: bv32): bv32 { x >> 1 }

  function Odd(x: bv32): bv32 { x & 1 }

  function Join(h: bv32, b: bv32): bv32 { 2*h + b }

  function XorV(x: bv32, y: bv32): bv32 { x ^ y }

  function AddV(x: bv32, y: bv32): bv32 { x + y }

  function AddV3(x: bv32, y: bv32, c: bv32): bv32 { x + y + c }

  function Bit0(x: bv32): nat { if Odd(x) == 1 then 1 else 0 }

  /** The number that the low n bits stand for */
  function Low(x: bv32, n: nat): (v: nat)
    ensures v < Pow2(n)
    decreases n
  {
    if n == 0 then 0 else 2*Low(Half(x), n - 1) + Bit0(x)
  }

  const WIDTH: nat := 32

  /** The number that a bit vector stands for */
  function Value(x: bv32): u32 {
    Pow2Half();
    Low(x, WIDTH) as u32
  }

  lemma LowStep(x: bv32, n: nat)
    requires n > 0
    ensures Low(x, n) == 2*Low(Half(x), n - 1) + Bit0(x)
    ensures Low(x, n) / 2 == Low(Half(x), n - 1) && Low(x, n) % 2 == Bit0(x)
  {}

  lemma LowNone(x: bv32)
    ensures Low(x, 0) == 0
  {}

  /** An n-fold shift to the right */
  function Shr(x: bv32, n: nat): bv32
    decreases n
  {
    if n == 0 then x else Shr(Half(x), n - 1)
  }

  lemma {:induction false} LowSplit(x: bv32, m: nat, n: nat)
    ensures Low(x, m + n) == Low(x, m) + Pow2(m)*Low(Shr(x, m), n)
    decreases m
  {
    hide Half, Bit0, Low;
    if m == 0 {
      LowNone(x);
    } else {
      LowStep(x, m + n);
      LowStep(x, m);
      LowSplit(Half(x), m - 1, n);
      LowSplitStep(Low(Half(x), m - 1), Pow2(m - 1), Low(Shr(Half(x), m - 1), n));
    }
  }

  lemma LowSplitStep(l: int, p: int, h: int)
    ensures 2*(l + p*h) == 2*l + (2*p)*h
  {}

  lemma {:induction false} ShrTwice(x: bv32, m: nat, n: nat)
    ensures Shr(x, m + n) == Shr(Shr(x, m), n)
    decreases m
  {
    hide Half;
    if m > 0 { ShrTwice(Half(x), m - 1, n); }
  }

  // Exclusive or.

  lemma XorParts(x: bv32, y: bv32)
    ensures Half(XorV(x, y)) == XorV(Half(x), Half(y))
    ensures Bit0(XorV(x, y)) == (Bit0(x) + Bit0(y)) % 2
  {}

  lemma {:induction false} LowXor(x: bv32, y: bv32, n: nat)
    ensures XorBits(Low(x, n), Low(y, n), n) == Low(XorV(x, y), n)
    decreases n
  {
    hide XorBits, Low, Bit0, Half, XorV, Pow2;
    if n == 0 {
      NoBits(Low(x, 0), Low(y, 0));
      LowNone(XorV(x, y));
    } else {
      LowXor(Half(x), Half(y), n - 1);
      XorParts(x, y);
      LowStep(x, n);
      LowStep(y, n);
      LowStep(XorV(x, y), n);
      LowXorStep(Low(x, n), Low(y, n), n, Bit0(x), Bit0(y));
    }
  }

  lemma LowXorStep(a: nat, b: nat, n: nat, p: nat, q: nat)
    requires n > 0 && a % 2 == p && b % 2 == q
    ensures XorBits(a, b, n) == 2*XorBits(a / 2, b / 2, n - 1) + (p + q) % 2
  {
    XorStep(a, b, n);
  }

  lemma ValueXor(x: bv32, y: bv32)
    ensures Value(XorV(x, y)) == Xor(Value(x), Value(y))
  {
    Pow2Half();
    LowXor(x, y, 32);
  }

  // Addition.

  function Carry1(x: bv32, y: bv32, c: bv32): bv32 { if x + y + c >= 2 then 1 else 0 }

  lemma HalfOf(x: bv32)
    ensures x == Join(Half(x), Odd(x)) && Odd(x) <= 1
  {}

  lemma JoinSum(xh: bv32, x0: bv32, yh: bv32, y0: bv32, c: bv32)
    ensures AddV3(Join(xh, x0), Join(yh, y0), c) == Join(AddV(xh, yh), AddV3(x0, y0, c))
  {
    JoinUnfold(xh, x0, yh, y0, c);
    JoinRing(xh, x0, yh, y0, c);
    JoinFold(xh, x0, yh, y0, c);
    hide Join, AddV, AddV3;
  }

  lemma JoinUnfold(xh: bv32, x0: bv32, yh: bv32, y0: bv32, c: bv32)
    ensures AddV3(Join(xh, x0), Join(yh, y0), c) == AddV3(2*xh + x0, 2*yh + y0, c)
  {
    hide AddV3;
  }

  lemma JoinRing(xh: bv32, x0: bv32, yh: bv32, y0: bv32, c: bv32)
    ensures AddV3(2*xh + x0, 2*yh + y0, c) == Join(xh + yh, x0 + y0 + c)
  {}

  lemma JoinFold(xh: bv32, x0: bv32, yh: bv32, y0: bv32, c: bv32)
    ensures Join(xh + yh, x0 + y0 + c) == Join(AddV(xh, yh), AddV3(x0, y0, c))
  {
    hide Join;
  }

  lemma JoinCarry(xh: bv32, yh: bv32, d: bv32, s: bv32)
    ensures Join(AddV(xh, yh), Join(d, s)) == Join(AddV3(xh, yh, d), s)
  {
    CarryUnfold(xh, yh, d, s);
    CarryRing(xh, yh, d, s);
    CarryFold(xh, yh, d, s);
    hide Join, AddV, AddV3;
  }

  lemma CarryUnfold(xh: bv32, yh: bv32, d: bv32, s: bv32)
    ensures Join(AddV(xh, yh), Join(d, s)) == Join(xh + yh, 2*d + s)
  {}

  lemma CarryRing(xh: bv32, yh: bv32, d: bv32, s: bv32)
    ensures Join(xh + yh, 2*d + s) == Join(xh + yh + d, s)
  {}

  lemma CarryFold(xh: bv32, yh: bv32, d: bv32, s: bv32)
    ensures Join(xh + yh + d, s) == Join(AddV3(xh, yh, d), s)
  {
    hide Join;
  }

  lemma OneBit(x0: bv32, y0: bv32, c: bv32)
    requires x0 <= 1 && y0 <= 1 && c <= 1
    ensures AddV3(x0, y0, c) == Join(Carry1(x0, y0, c), Odd(AddV3(x0, y0, c)))
    ensures Carry1(x0, y0, c) <= 1 && Odd(AddV3(x0, y0, c)) <= 1
    ensures Bit0(x0) + Bit0(y0) + Bit0(c) == 2*Bit0(Carry1(x0, y0, c)) + Bit0(Odd(AddV3(x0, y0, c)))
  {}

  lemma HalfJoin(t: bv32, b: bv32)
    requires b <= 1
    ensures Half(Join(t, b)) == Clear(t) && Bit0(Join(t, b)) == Bit0(b)
  {}

  /** Without the top bit */
  function Clear(t: bv32): bv32 { t & 0x7fff_ffff }

  lemma BitOdd(x: bv32)
    ensures Bit0(Odd(x)) == Bit0(x)
  {}

  /** One step of long addition */
  lemma SumParts(x: bv32, y: bv32, c: bv32) returns (d: bv32)
    requires c <= 1
    ensures d <= 1 && Half(AddV3(x, y, c)) == Clear(AddV3(Half(x), Half(y), d))
    ensures Bit0(x) + Bit0(y) + Bit0(c) == 2*Bit0(d) + Bit0(AddV3(x, y, c))
  {
    hide Half, Odd, Join, AddV, AddV3, Bit0, Clear, Carry1;
    var x0, y0 := Odd(x), Odd(y);
    d := Carry1(x0, y0, c);
    var s := Odd(AddV3(x0, y0, c));
    HalfOf(x);
    HalfOf(y);
    BitOdd(x);
    BitOdd(y);
    JoinSum(Half(x), x0, Half(y), y0, c);
    OneBit(x0, y0, c);
    JoinCarry(Half(x), Half(y), d, s);
    HalfJoin(AddV3(Half(x), Half(y), d), s);
  }

  function And(x: bv32, m: bv32): bv32 { x & m }

  /** The low k bits of m are set. */
  predicate Ones(m: bv32, k: nat)
    decreases k
  {
    k == 0 || (Odd(m) == 1 && Ones(Half(m), k - 1))
  }

  lemma AndParts(x: bv32, m: bv32)
    ensures Half(And(x, m)) == And(Half(x), Half(m))
    ensures Odd(m) == 1 ==> Bit0(And(x, m)) == Bit0(x)
  {}

  lemma {:induction false} LowAnd(x: bv32, m: bv32, k: nat)
    requires Ones(m, k)
    ensures Low(And(x, m), k) == Low(x, k)
    decreases k
  {
    hide Low, Half, Bit0, And, Odd;
    if k == 0 {
      LowNone(x);
      LowNone(And(x, m));
    } else {
      AndParts(x, m);
      LowAnd(Half(x), Half(m), k - 1);
      LowStep(x, k);
      LowStep(And(x, m), k);
    }
  }

  lemma AllButTop()
    ensures Ones(0x7fff_ffff, 31)
  {
    assert Ones(0xff, 8);
    assert Ones(0xffff, 16);
    assert Ones(0xff_ffff, 24);
  }

  lemma {:induction false} OnesFewer(m: bv32, j: nat, k: nat)
    requires j <= k && Ones(m, k)
    ensures Ones(m, j)
    decreases j
  {
    hide Half, Odd;
    if j > 0 { OnesFewer(Half(m), j - 1, k - 1); }
  }

  /** The top bit does not matter below. */
  lemma LowClear(x: bv32, k: nat)
    requires k <= 31
    ensures Low(Clear(x), k) == Low(x, k)
  {
    AllButTop();
    OnesFewer(0x7fff_ffff, k, 31);
    hide Low, Ones;
    LowAnd(x, 0x7fff_ffff, k);
  }

  /** Long addition; d is carried out. */
  lemma {:induction false} LowSum(x: bv32, y: bv32, c: bv32, n: nat) returns (d: nat)
    requires c <= 1 && n <= 32
    ensures Low(x, n) + Low(y, n) + Bit0(c) == Low(AddV3(x, y, c), n) + Pow2(n)*d
    decreases n
  {
    hide Low, Half, Bit0, AddV3, Clear;
    if n == 0 {
      LowNone(x);
      LowNone(y);
      LowNone(AddV3(x, y, c));
      d := Bit0(c);
    } else {
      var e := SumParts(x, y, c);
      d := LowSum(Half(x), Half(y), e, n - 1);
      LowClear(AddV3(Half(x), Half(y), e), n - 1);
      LowStep(x, n);
      LowStep(y, n);
      LowStep(AddV3(x, y, c), n);
      LowSplitStep(Low(AddV3(Half(x), Half(y), e), n - 1), Pow2(n - 1), d);
    }
  }

  lemma ValueAdd(x: bv32, y: bv32)
    ensures Value(AddV(x, y)) == Add(Value(x), Value(y))
  {
    hide Low, AddV3, AddV, Bit0, Pow2;
    Pow2Half();
    var d := LowSum(x, y, 0, 32);
    NoCarry(x, y);
    Quotient(Low(x, 32) + Low(y, 32), d, Low(AddV(x, y), 32));
  }

  lemma NoCarry(x: bv32, y: bv32)
    ensures AddV3(x, y, 0) == AddV(x, y) && Bit0(0) == 0
  {}

  // Rotation.

  /** By one place to the left */
  function Rot1(x: bv32): bv32 { x.RotateLeft(1) }

  lemma Rot1Parts(x: bv32)
    ensures Half(Rot1(x)) == Clear(x) && Odd(Rot1(x)) == Odd(Top(x))
  {}

  /** By 31 places to the right */
  function Top(x: bv32): bv32 { Shr16(Shr8(Shr4(Shr2(Half(x))))) }

  function Shr2(x: bv32): bv32 { x >> 2 }

  function Shr4(x: bv32): bv32 { x >> 4 }

  function Shr8(x: bv32): bv32 { x >> 8 }

  function Shr16(x: bv32): bv32 { x >> 16 }

  lemma ShrDouble2(x: bv32)
    ensures Half(Half(x)) == Shr2(x)
  {}

  lemma ShrDouble4(x: bv32)
    ensures Shr2(Shr2(x)) == Shr4(x)
  {}

  lemma ShrDouble8(x: bv32)
    ensures Shr4(Shr4(x)) == Shr8(x)
  {}

  lemma ShrDouble16(x: bv32)
    ensures Shr8(Shr8(x)) == Shr16(x)
  {}

  lemma ShrTwo(x: bv32)
    ensures Shr(x, 1) == Half(x) && Shr(x, 2) == Shr2(x)
  {
    assert Shr(x, 2) == Half(Half(x)) by { hide Half; }
    ShrDouble2(x);
    hide Half, Shr2;
  }

  lemma ShrFour(x: bv32)
    ensures Shr(x, 4) == Shr4(x)
  {
    hide *;
    ShrTwice(x, 2, 2);
    ShrTwo(x);
    ShrTwo(Shr2(x));
    ShrDouble4(x);
  }

  lemma ShrEight(x: bv32)
    ensures Shr(x, 8) == Shr8(x)
  {
    hide *;
    ShrTwice(x, 4, 4);
    ShrFour(x);
    ShrFour(Shr4(x));
    ShrDouble8(x);
  }

  lemma ShrSixteen(x: bv32)
    ensures Shr(x, 16) == Shr16(x)
  {
    hide *;
    ShrTwice(x, 8, 8);
    ShrEight(x);
    ShrEight(Shr8(x));
    ShrDouble16(x);
  }

  lemma ShrTop(x: bv32)
    ensures Shr(x, 31) == Top(x)
  {
    var y := Half(x);
    var z := Shr2(y);
    hide Half, Shr, Shr2, Shr4, Shr8, Shr16;
    ShrTwice(x, 1, 30);
    ShrTwice(y, 2, 28);
    ShrTwice(z, 4, 24);
    ShrTwice(Shr4(z), 8, 16);
    ShrTwo(x);
    ShrTwo(y);
    ShrFour(z);
    ShrEight(Shr4(z));
    ShrSixteen(Shr8(Shr4(z)));
  }

  lemma Value1(x: bv32)
    ensures Value(Rot1(x)) == Rotl(Value(x), 1)
  {
    hide Low, Rot1, Shr, Top, Half, Odd, Clear;
    Pow2Half();
    Rot1Parts(x);
    LowStep(Rot1(x), 32);
    LowClear(x, 31);
    LowSplit(x, 31, 1);
    ShrTop(x);
    LowStep(Shr(x, 31), 1);
    LowNone(Half(Shr(x, 31)));
    RotlOne(Value(x), Low(x, 31), Bit0(Top(x)));
  }

  lemma RotlOne(v: u32, l: nat, b: nat)
    requires l < Pow2(31) && b <= 1 && v as int == l + Pow2(31)*b
    ensures Rotl(v, 1) as int == 2*l + b
  {
    Pow2Half();
    assert Pow2(1) == 2;
    assert Pow2(32) == 2*Pow2(31);
    hide Pow2;
  }

  lemma RotlNone(v: u32)
    ensures Rotl(v, 0) == v
  {
    Pow2Half();
    assert Pow2(0) == 1;
  }

  lemma RotlParts(v: u32, n: nat, h: nat, l: nat)
    requires n <= 32 && l < Pow2(32 - n) && v as int == h*Pow2(32 - n) + l
    ensures Rotl(v, n) as int == Pow2(n)*l + h
  {
    RotlMeaning(v, n);
    Parts(v as int, Pow2(n), Pow2(32 - n), h, l);
    hide Pow2, Rotl;
  }

  lemma Parts(v: int, p: int, q: int, h: int, l: int)
    requires 0 <= l < q && v == h*q + l
    ensures p*(v % q) + v / q == p*l + h
  {
    assert v == l + q*h;
    ModUnique(v, l, h, q);
  }

  lemma RotlMeaning(v: u32, n: nat)
    requires n <= 32
    ensures Rotl(v, n) as int == Pow2(n)*(v as int % Pow2(32 - n)) + v as int / Pow2(32 - n)
  {}

  lemma RotlNext(v: u32, n: nat)
    requires n < 32
    ensures Rotl(Rotl(v, n), 1) == Rotl(v, n + 1)
  {
    hide Pow2, Rotl;
    var q := Pow2(31 - n);
    var h, l := v as int / (2*q), v as int % (2*q);
    NextParts(v as int, q, h, l, l / q, l % q);
    var k := RotlTop(v, n, h, l / q, l % q);
    RotlOne(Rotl(v, n), k, l / q);
    RotlMore(v, n, h, l / q, l % q);
  }

  lemma RotlTop(v: u32, n: nat, h: nat, t: nat, l: nat) returns (k: nat)
    requires n < 32 && l < Pow2(31 - n) && t <= 1 && v as int == (2*h + t)*Pow2(31 - n) + l
    ensures k == Pow2(n)*l + h < Pow2(31) && Rotl(v, n) as int == k + Pow2(31)*t
  {
    var p, q := Pow2(n), Pow2(31 - n);
    Powers(n);
    hide Pow2, Rotl;
    TopParts(v as int, p, q, h, t, l);
    RotlParts(v, n, h, t*q + l);
    k := p*l + h;
    TurnSum(p, q, t*q + l, t, l);
  }

  lemma TopParts(v: int, p: int, q: int, h: nat, t: nat, l: nat)
    requires 0 <= v < 2*(p*q) && l < q && t <= 1 && v == (2*h + t)*q + l && p > 0
    ensures t*q + l < 2*q && v == h*(2*q) + (t*q + l) && 0 <= p*l + h < p*q
  {
    assert (2*h + t)*q == h*(2*q) + t*q;
    assert t == 0 || t == 1;
    TopBelow(v, p, q, h, t*q + l);
    NotNegative(p, l);
    RemainderBelow(p, l, q);
  }

  lemma TopBelow(v: int, p: int, q: int, h: int, m: int)
    requires 0 <= m < 2*q && v == h*(2*q) + m && 0 <= v < 2*(p*q)
    ensures h < p
  {
    assert (2*q)*(h - p) == h*(2*q) - 2*(p*q);
    if h >= p { NotNegative(2*q, h - p); }
  }

  lemma RotlMore(v: u32, n: nat, h: nat, t: nat, l: nat)
    requires n < 32 && l < Pow2(31 - n) && v as int == (2*h + t)*Pow2(31 - n) + l
    ensures Rotl(v, n + 1) as int == 2*(Pow2(n)*l + h) + t
  {
    Powers(n);
    hide Pow2, Rotl;
    RotlParts(v, n + 1, 2*h + t, l);
    NextSum(Pow2(n), l, h);
  }

  lemma Powers(n: nat)
    requires n < 32
    ensures Pow2(32 - n) == 2*Pow2(31 - n) && Pow2(n + 1) == 2*Pow2(n)
    ensures Pow2(31) == Pow2(n)*Pow2(31 - n) && 2*Pow2(31) == 0x1_0000_0000
  {
    Pow2Sum(n, 31 - n);
    Pow2Half();
    assert Pow2(32) == 2*Pow2(31);
  }

  lemma NextParts(v: int, q: int, h: int, l: int, t: int, l': int)
    requires q > 0 && v >= 0 && h == v / (2*q) && l == v % (2*q) && t == l / q && l' == l % q
    ensures h >= 0 && 0 <= l < 2*q && 0 <= t <= 1 && 0 <= l' < q && l == t*q + l'
    ensures v == h*(2*q) + l && v == (2*h + t)*q + l'
  {
    assert v == h*(2*q) + l;
    assert l == t*q + l';
    assert (2*h + t)*q == h*(2*q) + t*q;
  }

  lemma TurnSum(p: int, q: int, l: int, t: int, l': int)
    requires l == t*q + l'
    ensures p*l == p*l' + (p*q)*t
  {}

  lemma NextSum(p: int, l': int, h: int)
    ensures 2*(p*l' + h) == (2*p)*l' + 2*h
  {}

  lemma {:induction false} RotlSum(v: u32, m: nat, n: nat)
    requires m + n <= 32
    ensures Rotl(Rotl(v, m), n) == Rotl(v, m + n)
  {
    hide Rotl;
    if n == 0 {
      RotlNone(Rotl(v, m));
    } else {
      RotlSum(v, m, n - 1);
      RotlNext(v, m + n - 1);
      RotlNext(Rotl(v, m), n - 1);
    }
  }

  function Rot2(x: bv32): bv32 { x.RotateLeft(2) }

  function Rot4(x: bv32): bv32 { x.RotateLeft(4) }

  function Rot7(x: bv32): bv32 { x.RotateLeft(7) }

  function Rot8(x: bv32): bv32 { x.RotateLeft(8) }

  function Rot12(x: bv32): bv32 { x.RotateLeft(12) }

  function Rot16(x: bv32): bv32 { x.RotateLeft(16) }

  function Rot20(x: bv32): bv32 { x.RotateLeft(20) }

  function Rot24(x: bv32): bv32 { x.RotateLeft(24) }

  function Rot25(x: bv32): bv32 { x.RotateLeft(25) }

  lemma Rotate2(x: bv32)
    ensures Rot1(Rot1(x)) == Rot2(x)
  {}

  lemma Value2(x: bv32)
    ensures Value(Rot2(x)) == Rotl(Value(x), 2)
  {
    hide *;
    Rotate2(x);
    Value1(x);
    Value1(Rot1(x));
    RotlSum(Value(x), 1, 1);
  }

  lemma Rotate4(x: bv32)
    ensures Rot2(Rot2(x)) == Rot4(x)
  {}

  lemma Value4(x: bv32)
    ensures Value(Rot4(x)) == Rotl(Value(x), 4)
  {
    hide *;
    Rotate4(x);
    Value2(x);
    Value2(Rot2(x));
    RotlSum(Value(x), 2, 2);
  }

  lemma Rotate8(x: bv32)
    ensures Rot4(Rot4(x)) == Rot8(x)
  {}

  lemma Value8(x: bv32)
    ensures Value(Rot8(x)) == Rotl(Value(x), 8)
  {
    hide *;
    Rotate8(x);
    Value4(x);
    Value4(Rot4(x));
    RotlSum(Value(x), 4, 4);
  }

  lemma Rotate16(x: bv32)
    ensures Rot8(Rot8(x)) == Rot16(x)
  {}

  lemma Value16(x: bv32)
    ensures Value(Rot16(x)) == Rotl(Value(x), 16)
  {
    hide *;
    Rotate16(x);
    Value8(x);
    Value8(Rot8(x));
    RotlSum(Value(x), 8, 8);
  }

  lemma Rotate12(x: bv32)
    ensures Rot4(Rot8(x)) == Rot12(x)
  {}

  lemma Value12(x: bv32)
    ensures Value(Rot12(x)) == Rotl(Value(x), 12)
  {
    hide *;
    Rotate12(x);
    Value8(x);
    Value4(Rot8(x));
    RotlSum(Value(x), 8, 4);
  }

  lemma Rotate20(x: bv32)
    ensures Rot4(Rot16(x)) == Rot20(x)
  {}

  lemma Value20(x: bv32)
    ensures Value(Rot20(x)) == Rotl(Value(x), 20)
  {
    hide *;
    Rotate20(x);
    Value16(x);
    Value4(Rot16(x));
    RotlSum(Value(x), 16, 4);
  }

  lemma Rotate24(x: bv32)
    ensures Rot8(Rot16(x)) == Rot24(x)
  {}

  lemma Value24(x: bv32)
    ensures Value(Rot24(x)) == Rotl(Value(x), 24)
  {
    hide *;
    Rotate24(x);
    Value16(x);
    Value8(Rot16(x));
    RotlSum(Value(x), 16, 8);
  }

  lemma Rotate25(x: bv32)
    ensures Rot1(Rot24(x)) == Rot25(x)
  {}

  lemma Value25(x: bv32)
    ensures Value(Rot25(x)) == Rotl(Value(x), 25)
  {
    hide *;
    Rotate25(x);
    Value24(x);
    Value1(Rot24(x));
    RotlSum(Value(x), 24, 1);
  }

  lemma Rotate7(x: bv32)
    ensures Rot1(Rot2(Rot4(x))) == Rot7(x)
  {}

  lemma Value7(x: bv32)
    ensures Value(Rot7(x)) == Rotl(Value(x), 7)
  {
    hide *;
    Rotate7(x);
    Value4(x);
    Value2(Rot4(x));
    Value1(Rot2(Rot4(x)));
    RotlSum(Value(x), 4, 2);
    RotlSum(Value(x), 6, 1);
  }

  // The value in a form without recursion.

  function Low2(x: bv32): nat { Bit0(x) + 2*Bit0(Half(x)) }

  /** The lowest hexadecimal digit */
  function Digit(x: bv32): nat {
    var d := x & 0xf;
    if d == 0 then 0 else if d == 1 then 1 else if d == 2 then 2 else if d == 3 then 3 else
    if d == 4 then 4 else if d == 5 then 5 else if d == 6 then 6 else if d == 7 then 7 else
    if d == 8 then 8 else if d == 9 then 9 else if d == 10 then 10 else if d == 11 then 11 else
    if d == 12 then 12 else if d == 13 then 13 else if d == 14 then 14 else 15
  }

  function Hex(x: bv32): nat {
    Digit(x) + 0x10*Digit(x >> 4) + 0x100*Digit(x >> 8) + 0x1000*Digit(x >> 12) + 0x1_0000*Digit(x >> 16)
      + 0x10_0000*Digit(x >> 20) + 0x100_0000*Digit(x >> 24) + 0x1000_0000*Digit(x >> 28)
  }

  lemma LowTwo(x: bv32)
    ensures Low(x, 2) == Low2(x)
  {
    hide Low, Bit0, Half, Shr;
    LowStep(x, 2);
    LowStep(Half(x), 1);
    LowNone(Half(Half(x)));
  }

  lemma DigitBits(x: bv32)
    ensures Digit(x) == Low2(x) + 4*Low2(Shr2(x))
  {}

  lemma LowFour(x: bv32)
    ensures Low(x, 4) == Digit(x)
  {
    hide Low, Low2, Shr, Shr2, Digit;
    LowSplit(x, 2, 2);
    ShrTwo(x);
    LowTwo(x);
    LowTwo(Shr2(x));
    DigitBits(x);
  }

  lemma LowEight(x: bv32)
    ensures Low(x, 8) == Digit(x) + 0x10*Digit(Shr4(x))
  {
    hide Low, Digit, Shr, Shr4;
    LowSplit(x, 4, 4);
    ShrFour(x);
    LowFour(x);
    LowFour(Shr4(x));
  }

  lemma LowSixteen(x: bv32)
    ensures Low(x, 16) == Digit(x) + 0x10*Digit(Shr4(x)) + 0x100*Digit(Shr8(x)) + 0x1000*Digit(Shr4(Shr8(x)))
  {
    hide Low, Digit, Shr, Shr4, Shr8, Pow2;
    Pow2Byte();
    LowSplit(x, 8, 8);
    ShrEight(x);
    LowEight(x);
    LowEight(Shr8(x));
  }

  lemma Shifts(x: bv32)
    ensures Shr4(x) == x >> 4 && Shr8(x) == x >> 8 && Shr4(Shr8(x)) == x >> 12 && Shr16(x) == x >> 16
  {}

  lemma HighShifts(x: bv32)
    ensures Shr4(x >> 16) == x >> 20 && Shr8(x >> 16) == x >> 24 && Shr4(Shr8(x >> 16)) == x >> 28
  {}

  lemma ValueHex(x: bv32)
    ensures Value(x) as int == Hex(x)
  {
    hide Low, Digit, Shr, Shr4, Shr8, Shr16, Pow2;
    Pow2Half();
    LowSplit(x, 16, 16);
    ShrSixteen(x);
    LowSixteen(x);
    LowSixteen(Shr16(x));
    Shifts(x);
    HighShifts(x);
  }
}
