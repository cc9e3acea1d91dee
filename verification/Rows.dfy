/**
 The 4 x 4 state that ChaCha20 and BLAKE2s share: as sixteen words that four at
 a time go through a quarter step, and as four NEON registers whose lanes do so
 side by side.
 */
module Rows {
  import opened MachineInts
  import opened Words

  /** uint32x4_t */
  datatype Lanes = Lanes(x0: u32, x1: u32, x2: u32, x3: u32)

  /** Four words from position i on, as vld1q_u32 loads them */
  function Row(v: seq<u32>, i: nat): Lanes
    requires i + 4 <= |v|
  {
    Lanes(v[i], v[i + 1], v[i + 2], v[i + 3])
  }

  function AddLanes(a: Lanes, b: Lanes): Lanes {
    Lanes(Add(a.x0, b.x0), Add(a.x1, b.x1), Add(a.x2, b.x2), Add(a.x3, b.x3))
  }

  function XorLanes(a: Lanes, b: Lanes): Lanes {
    Lanes(Xor(a.x0, b.x0), Xor(a.x1, b.x1), Xor(a.x2, b.x2), Xor(a.x3, b.x3))
  }

  function RotlLanes(a: Lanes, n: nat): Lanes
    requires n <= 32
  {
    Lanes(Rotl(a.x0, n), Rotl(a.x1, n), Rotl(a.x2, n), Rotl(a.x3, n))
  }

  /** vrev32q_u16 */
  function SwapLanes(a: Lanes): Lanes {
    Lanes(SwapHalves(a.x0), SwapHalves(a.x1), SwapHalves(a.x2), SwapHalves(a.x3))
  }

  lemma SwapLanesRotate(a: Lanes)
    ensures SwapLanes(a) == RotlLanes(a, 16)
  {
    SwapIsRotation(a.x0);
    SwapIsRotation(a.x1);
    SwapIsRotation(a.x2);
    SwapIsRotation(a.x3);
  }

  /** vextq_u32(a, a, n): the lanes move down by n */
  function Ext(a: Lanes, n: nat): Lanes {
    if n == 1 then Lanes(a.x1, a.x2, a.x3, a.x0)
    else if n == 2 then Lanes(a.x2, a.x3, a.x0, a.x1)
    else if n == 3 then Lanes(a.x3, a.x0, a.x1, a.x2)
    else a
  }

  /** Four words that go through a quarter step together */
  datatype Quad = Quad(a: u32, b: u32, c: u32, d: u32)

  /** The state in registers */
  datatype Rows = Rows(a: Lanes, b: Lanes, c: Lanes, d: Lanes)

  /** The state as sixteen words */
  type Sixteen = v: seq<u32> | |v| == 16 witness seq(16, _ => 0)

  function Flat(m: Rows): Sixteen {
    [m.a.x0, m.a.x1, m.a.x2, m.a.x3, m.b.x0, m.b.x1, m.b.x2, m.b.x3,
     m.c.x0, m.c.x1, m.c.x2, m.c.x3, m.d.x0, m.d.x1, m.d.x2, m.d.x3]
  }

  function Lane(a: Lanes, i: nat): u32
    requires i < 4
  {
    if i == 0 then a.x0 else if i == 1 then a.x1 else if i == 2 then a.x2 else a.x3
  }

  function SetLane(a: Lanes, i: nat, x: u32): Lanes
    requires i < 4
  {
    if i == 0 then a.(x0 := x) else if i == 1 then a.(x1 := x) else if i == 2 then a.(x2 := x) else a.(x3 := x)
  }

  function Column(m: Rows, i: nat): Quad
    requires i < 4
  {
    Quad(Lane(m.a, i), Lane(m.b, i), Lane(m.c, i), Lane(m.d, i))
  }

  function SetColumn(m: Rows, i: nat, q: Quad): Rows
    requires i < 4
  {
    Rows(SetLane(m.a, i, q.a), SetLane(m.b, i, q.b), SetLane(m.c, i, q.c), SetLane(m.d, i, q.d))
  }

  function SetColumns(m: Rows, q0: Quad, q1: Quad, q2: Quad, q3: Quad): Rows {
    SetColumn(SetColumn(SetColumn(SetColumn(m, 0, q0), 1, q1), 2, q2), 3, q3)
  }

  /** The columns of the result are the diagonals of the state. */
  function Shift(m: Rows): Rows { Rows(m.a, Ext(m.b, 1), Ext(m.c, 2), Ext(m.d, 3)) }

  function Unshift(m: Rows): Rows { Rows(m.a, Ext(m.b, 3), Ext(m.c, 2), Ext(m.d, 1)) }

  function Get(v: Sixteen, i: nat, j: nat, k: nat, l: nat): Quad
    requires i < 16 && j < 16 && k < 16 && l < 16
  {
    Quad(v[i], v[j], v[k], v[l])
  }

  function Put(v: Sixteen, i: nat, j: nat, k: nat, l: nat, q: Quad): Sixteen
    requires i < 16 && j < 16 && k < 16 && l < 16
  {
    v[i := q.a][j := q.b][k := q.c][l := q.d]
  }

  lemma GetColumn(m: Rows, i: nat)
    requires i < 4
    ensures Get(Flat(m), i, 4 + i, 8 + i, 12 + i) == Column(m, i)
  {}

  lemma PutColumn(m: Rows, i: nat, q: Quad)
    requires i < 4
    ensures Put(Flat(m), i, 4 + i, 8 + i, 12 + i, q) == Flat(SetColumn(m, i, q))
  {}

  lemma GetDiagonal(m: Rows, i: nat)
    requires i < 4
    ensures Get(Flat(m), i, 4 + (i + 1) % 4, 8 + (i + 2) % 4, 12 + (i + 3) % 4) == Column(Shift(m), i)
  {}

  lemma PutDiagonal(m: Rows, i: nat, q: Quad)
    requires i < 4
    ensures Put(Flat(m), i, 4 + (i + 1) % 4, 8 + (i + 2) % 4, 12 + (i + 3) % 4, q)
      == Flat(Unshift(SetColumn(Shift(m), i, q)))
  {}

  lemma ShiftBack(m: Rows)
    ensures Unshift(Shift(m)) == m && Shift(Unshift(m)) == m
  {}
}
