/**
 The BLAKE2s compression function: section 3.2 of RFC 7693, the scalar code of
 library/crypto/blake2s.c and the NEON code of src/blake2s_neon.c.
 */
module Blake2sCompress {
  import opened MachineInts
  import opened Words
  import opened Rows
  import Bytes

  type Eight = v: seq<u32> | |v| == 8 witness seq(8, _ => 0)

  const IV: Eight := [0x6A09E667, 0xBB67AE85, 0x3C6EF372, 0xA54FF53A, 0x510E527F, 0x9B05688C, 0x1F83D9AB, 0x5BE0CD19]

  newtype Index = x: int | 0 <= x < 16

  type Schedule = s: seq<Index> | |s| == 16 witness seq(16, _ => 0)

  const SIGMA: seq<Schedule> := [
    [0, 1, 2, 3, 4, 5, 6, 7, 8, 9, 10, 11, 12, 13, 14, 15],
    [14, 10, 4, 8, 9, 15, 13, 6, 1, 12, 0, 2, 11, 7, 5, 3],
    [11, 8, 12, 0, 5, 2, 15, 13, 10, 14, 3, 6, 7, 1, 9, 4],
    [7, 9, 3, 1, 13, 12, 11, 14, 2, 6, 5, 10, 4, 0, 15, 8],
    [9, 0, 5, 7, 2, 4, 10, 15, 14, 1, 11, 12, 6, 8, 3, 13],
    [2, 12, 6, 10, 0, 11, 8, 3, 4, 13, 7, 5, 15, 14, 1, 9],
    [12, 5, 1, 15, 14, 13, 4, 10, 0, 7, 6, 3, 9, 2, 8, 11],
    [13, 11, 7, 14, 12, 1, 3, 9, 5, 0, 15, 4, 8, 6, 2, 10],
    [6, 15, 14, 9, 11, 3, 0, 8, 12, 2, 13, 7, 1, 4, 10, 5],
    [10, 2, 8, 4, 7, 6, 1, 5, 15, 11, 9, 14, 3, 12, 13, 0]]

  // Section 3.1: the mixing function; section 3.2: rounds and compression.

  function G(q: Quad, x: u32, y: u32): Quad {
    var a := Add(Add(q.a, q.b), x);
    var d := Rotr(Xor(q.d, a), 16);
    var c := Add(q.c, d);
    var b := Rotr(Xor(q.b, c), 12);
    var a := Add(Add(a, b), y);
    var d := Rotr(Xor(d, a), 8);
    var c := Add(c, d);
    Quad(a, Rotr(Xor(b, c), 7), c, d)
  }

  function Mix(v: Sixteen, i: nat, j: nat, k: nat, l: nat, x: u32, y: u32): Sixteen
    requires i < 16 && j < 16 && k < 16 && l < 16
  {
    Put(v, i, j, k, l, G(Get(v, i, j, k, l), x, y))
  }

  /** The message word that a schedule names in its i-th place */
  function Word(m: Sixteen, s: Schedule, i: nat): u32
    requires i < 16
  {
    m[s[i]]
  }

  function Columns(v: Sixteen, m: Sixteen, s: Schedule): Sixteen {
    var v: Sixteen := Mix(v, 0, 4, 8, 12, Word(m, s, 0), Word(m, s, 1));
    var v: Sixteen := Mix(v, 1, 5, 9, 13, Word(m, s, 2), Word(m, s, 3));
    var v: Sixteen := Mix(v, 2, 6, 10, 14, Word(m, s, 4), Word(m, s, 5));
    Mix(v, 3, 7, 11, 15, Word(m, s, 6), Word(m, s, 7))
  }

  function Diagonals(v: Sixteen, m: Sixteen, s: Schedule): Sixteen {
    var v: Sixteen := Mix(v, 0, 5, 10, 15, Word(m, s, 8), Word(m, s, 9));
    var v: Sixteen := Mix(v, 1, 6, 11, 12, Word(m, s, 10), Word(m, s, 11));
    var v: Sixteen := Mix(v, 2, 7, 8, 13, Word(m, s, 12), Word(m, s, 13));
    Mix(v, 3, 4, 9, 14, Word(m, s, 14), Word(m, s, 15))
  }

  /** The first rounds of a list of schedules */
  function Rounds(v: Sixteen, m: Sixteen, sigma: seq<Schedule>, n: nat): Sixteen
    requires n <= |sigma|
  {
    if n == 0 then v else
    var v := Rounds(v, m, sigma, n - 1);
    Diagonals(Columns(v, m, sigma[n - 1]), m, sigma[n - 1])
  }

  /** The working vector, with the offset counter and the final flag */
  function Setup(h: Eight, t0: u32, t1: u32, f0: u32, f1: u32): Sixteen {
    h + IV[..4] + [Xor(t0, IV[4]), Xor(t1, IV[5]), Xor(f0, IV[6]), Xor(f1, IV[7])]
  }

  function Fold(h: Eight, v: Sixteen): Eight {
    seq(8, i requires 0 <= i < 8 => Xor(Xor(h[i], v[i]), v[i + 8]))
  }

  function Compressed(h: Eight, m: Sixteen, t0: u32, t1: u32, f0: u32, f1: u32): Eight {
    Fold(h, Rounds(Setup(h, t0, t1, f0, f1), m, SIGMA, |SIGMA|))
  }

  // The NEON code.

  /** g_neon */
  method GNeon(m: Rows, mx: Lanes, my: Lanes) returns (r: Rows)
    ensures r == SetColumns(m, G(Column(m, 0), mx.x0, my.x0), G(Column(m, 1), mx.x1, my.x1),
                               G(Column(m, 2), mx.x2, my.x2), G(Column(m, 3), mx.x3, my.x3))
  {
    var a, b, c, d := m.a, m.b, m.c, m.d;
    a := AddLanes(AddLanes(a, b), mx);
    SwapLanesRotate(XorLanes(d, a));
    d := SwapLanes(XorLanes(d, a));
    hide Add, Xor, Rotl, SwapHalves;
    c := AddLanes(c, d);
    b := RotlLanes(XorLanes(b, c), 20);
    a := AddLanes(AddLanes(a, b), my);
    d := RotlLanes(XorLanes(d, a), 24);
    c := AddLanes(c, d);
    b := RotlLanes(XorLanes(b, c), 25);
    r := Rows(a, b, c, d);
  }

  /** gather4 */
  function Gather(m: Sixteen, i0: Index, i1: Index, i2: Index, i3: Index): Lanes {
    Lanes(m[i0], m[i1], m[i2], m[i3])
  }

  lemma ColumnsFlat(r: Rows, m: Sixteen, s: Schedule)
    ensures Columns(Flat(r), m, s)
         == Flat(SetColumns(r, G(Column(r, 0), Word(m, s, 0), Word(m, s, 1)),
                               G(Column(r, 1), Word(m, s, 2), Word(m, s, 3)),
                               G(Column(r, 2), Word(m, s, 4), Word(m, s, 5)),
                               G(Column(r, 3), Word(m, s, 6), Word(m, s, 7))))
  {
    hide G, Flat, Get, Put;
    var r0 := MixColumn(r, 0, Word(m, s, 0), Word(m, s, 1));
    var r1 := MixColumn(r0, 1, Word(m, s, 2), Word(m, s, 3));
    var r2 := MixColumn(r1, 2, Word(m, s, 4), Word(m, s, 5));
    var r3 := MixColumn(r2, 3, Word(m, s, 6), Word(m, s, 7));
  }

  lemma MixColumn(r: Rows, i: nat, x: u32, y: u32) returns (r': Rows)
    requires i < 4
    ensures r' == SetColumn(r, i, G(Column(r, i), x, y))
    ensures Mix(Flat(r), i, 4 + i, 8 + i, 12 + i, x, y) == Flat(r')
  {
    hide G, Flat, Get, Put;
    r' := SetColumn(r, i, G(Column(r, i), x, y));
    GetColumn(r, i);
    PutColumn(r, i, G(Column(r, i), x, y));
  }

  lemma MixDiagonal(r: Rows, i: nat, x: u32, y: u32) returns (r': Rows)
    requires i < 4
    ensures r' == SetColumn(r, i, G(Column(r, i), x, y))
    ensures Mix(Flat(Unshift(r)), i, 4 + (i + 1) % 4, 8 + (i + 2) % 4, 12 + (i + 3) % 4, x, y) == Flat(Unshift(r'))
  {
    ShiftBack(r);
    hide G, Flat, Get, Put, Shift, Unshift;
    r' := SetColumn(r, i, G(Column(r, i), x, y));
    GetDiagonal(Unshift(r), i);
    PutDiagonal(Unshift(r), i, G(Column(r, i), x, y));
  }

  lemma DiagonalsFlat(r: Rows, m: Sixteen, s: Schedule)
    ensures Diagonals(Flat(Unshift(r)), m, s)
         == Flat(Unshift(SetColumns(r, G(Column(r, 0), Word(m, s, 8), Word(m, s, 9)),
                                       G(Column(r, 1), Word(m, s, 10), Word(m, s, 11)),
                                       G(Column(r, 2), Word(m, s, 12), Word(m, s, 13)),
                                       G(Column(r, 3), Word(m, s, 14), Word(m, s, 15)))))
  {
    hide G, Flat, Get, Put, Unshift;
    var r0 := MixDiagonal(r, 0, Word(m, s, 8), Word(m, s, 9));
    var r1 := MixDiagonal(r0, 1, Word(m, s, 10), Word(m, s, 11));
    var r2 := MixDiagonal(r1, 2, Word(m, s, 12), Word(m, s, 13));
    var r3 := MixDiagonal(r2, 3, Word(m, s, 14), Word(m, s, 15));
  }

  /** One iteration of the loop in blake2s_compress_neon */
  method RoundNeon(r: Rows, m: Sixteen, s: Schedule) returns (r': Rows)
    ensures Flat(r') == Diagonals(Columns(Flat(r), m, s), m, s)
  {
    hide G, Flat, Columns, Diagonals, Ext;
    ColumnsFlat(r, m, s);
    var c := GNeon(r, Gather(m, s[0], s[2], s[4], s[6]), Gather(m, s[1], s[3], s[5], s[7]));
    ShiftBack(c);
    var d := Rows(c.a, Ext(c.b, 1), Ext(c.c, 2), Ext(c.d, 3));
    DiagonalsFlat(d, m, s);
    var e := GNeon(d, Gather(m, s[8], s[10], s[12], s[14]), Gather(m, s[9], s[11], s[13], s[15]));
    r' := Rows(e.a, Ext(e.b, 3), Ext(e.c, 2), Ext(e.d, 1));
  }

  /** A message block as words */
  function Load(block: seq<byte>): Sixteen
    requires |block| == 64
  {
    seq(16, i requires 0 <= i < 16 => Bytes.Load32(block, 4*i))
  }

  method LoadWords(block: seq<byte>) returns (m: Sixteen)
    requires |block| == 64
    ensures m == Load(block)
  {
    hide Bytes.Load32;
    m := seq(16, _ => 0);
    for i := 0 to 16
      invariant forall k | 0 <= k < i :: m[k] == Bytes.Load32(block, 4*k)
    {
      m := m[i := Bytes.Load32(block, 4*i)];
    }
  }

  /** blake2s_compress_neon */
  method CompressNeon(h: array<u32>, block: seq<byte>, t0: u32, t1: u32, f0: u32, f1: u32)
    requires h.Length == 8 && |block| == 64
    modifies h
    ensures h[..] == Compressed(old(h[..]), Load(block), t0, t1, f0, f1)
  {
    hide Rounds, Columns, Diagonals, Xor, Load;
    var m := LoadWords(block);
    var rows := Rows(Row(h[..], 0), Row(h[..], 4), Row(IV, 0),
                     Lanes(Xor(t0, IV[4]), Xor(t1, IV[5]), Xor(f0, IV[6]), Xor(f1, IV[7])));
    var orig0, orig1 := rows.a, rows.b;
    ghost var v := Setup(h[..], t0, t1, f0, f1);
    SetupRows(h[..], rows, t0, t1, f0, f1);
    rows := RoundsNeon(rows, m, SIGMA);
    var row0, row1 := XorLanes(rows.a, rows.c), XorLanes(rows.b, rows.d);
    row0, row1 := XorLanes(row0, orig0), XorLanes(row1, orig1);
    FoldRows(h[..], rows, row0, row1);
    h[0], h[1], h[2], h[3] := row0.x0, row0.x1, row0.x2, row0.x3;
    h[4], h[5], h[6], h[7] := row1.x0, row1.x1, row1.x2, row1.x3;
  }

  /** Its loop, for any list of schedules */
  method RoundsNeon(r: Rows, m: Sixteen, sigma: seq<Schedule>) returns (r': Rows)
    ensures Flat(r') == Rounds(Flat(r), m, sigma, |sigma|)
  {
    hide Flat, Columns, Diagonals;
    r' := r;
    for i := 0 to |sigma|
      invariant Flat(r') == Rounds(Flat(r), m, sigma, i)
    {
      r' := RoundNeon(r', m, sigma[i]);
    }
  }

  lemma SetupRows(h: Eight, rows: Rows, t0: u32, t1: u32, f0: u32, f1: u32)
    requires rows == Rows(Row(h, 0), Row(h, 4), Row(IV, 0),
                          Lanes(Xor(t0, IV[4]), Xor(t1, IV[5]), Xor(f0, IV[6]), Xor(f1, IV[7])))
    ensures Flat(rows) == Setup(h, t0, t1, f0, f1)
  {
    hide Xor;
  }

  /** The end of the NEON code folds in another order than the scalar code. */
  lemma FoldRows(h: Eight, rows: Rows, out0: Lanes, out1: Lanes)
    requires out0 == XorLanes(XorLanes(rows.a, rows.c), Row(h, 0))
    requires out1 == XorLanes(XorLanes(rows.b, rows.d), Row(h, 4))
    ensures Fold(h, Flat(rows)) == [out0.x0, out0.x1, out0.x2, out0.x3, out1.x0, out1.x1, out1.x2, out1.x3]
  {
    hide Xor;
    XorOrder(h[0], rows.a.x0, rows.c.x0);
    XorOrder(h[1], rows.a.x1, rows.c.x1);
    XorOrder(h[2], rows.a.x2, rows.c.x2);
    XorOrder(h[3], rows.a.x3, rows.c.x3);
    XorOrder(h[4], rows.b.x0, rows.d.x0);
    XorOrder(h[5], rows.b.x1, rows.d.x1);
    XorOrder(h[6], rows.b.x2, rows.d.x2);
    XorOrder(h[7], rows.b.x3, rows.d.x3);
  }

  // The scalar code.

  /** The macro G */
  method GScalar(v: array<u32>, i: nat, j: nat, k: nat, l: nat, x: u32, y: u32)
    requires v.Length == 16 && i < j < 16 && j != k && k < 16 && l < 16 && i < k && i < l && j != l && k != l
    modifies v
    ensures v[..] == Mix(old(v[..]), i, j, k, l, x, y)
  {
    hide Add, Xor, Rotr;
    v[i] := Add(Add(v[i], v[j]), x);
    v[l] := Rotr(Xor(v[l], v[i]), 16);
    v[k] := Add(v[k], v[l]);
    v[j] := Rotr(Xor(v[j], v[k]), 12);
    v[i] := Add(Add(v[i], v[j]), y);
    v[l] := Rotr(Xor(v[l], v[i]), 8);
    v[k] := Add(v[k], v[l]);
    v[j] := Rotr(Xor(v[j], v[k]), 7);
  }

  /** The macro ROUND */
  method RoundScalar(v: array<u32>, m: Sixteen, s: Schedule)
    requires v.Length == 16
    modifies v
    ensures v[..] == Diagonals(Columns(old(v[..]), m, s), m, s)
  {
    hide Mix, Word;
    GScalar(v, 0, 4, 8, 12, Word(m, s, 0), Word(m, s, 1));
    GScalar(v, 1, 5, 9, 13, Word(m, s, 2), Word(m, s, 3));
    GScalar(v, 2, 6, 10, 14, Word(m, s, 4), Word(m, s, 5));
    GScalar(v, 3, 7, 11, 15, Word(m, s, 6), Word(m, s, 7));
    GScalar(v, 0, 5, 10, 15, Word(m, s, 8), Word(m, s, 9));
    GScalar(v, 1, 6, 11, 12, Word(m, s, 10), Word(m, s, 11));
    GScalar(v, 2, 7, 8, 13, Word(m, s, 12), Word(m, s, 13));
    GScalar(v, 3, 4, 9, 14, Word(m, s, 14), Word(m, s, 15));
  }

  method SetupScalar(h: array<u32>, t0: u32, t1: u32, f0: u32, f1: u32) returns (v: array<u32>)
    requires h.Length == 8
    ensures fresh(v) && v[..] == Setup(h[..], t0, t1, f0, f1)
  {
    hide Xor;
    v := new u32[16];
    for i := 0 to 8
      invariant forall k | 0 <= k < i :: v[k] == h[k]
    {
      v[i] := h[i];
    }
    v[8], v[9], v[10], v[11] := IV[0], IV[1], IV[2], IV[3];
    v[12], v[13], v[14], v[15] := Xor(t0, IV[4]), Xor(t1, IV[5]), Xor(f0, IV[6]), Xor(f1, IV[7]);
  }

  method FoldScalar(h: array<u32>, v: array<u32>)
    requires h.Length == 8 && v.Length == 16 && h != v
    modifies h
    ensures h[..] == Fold(old(h[..]), v[..])
  {
    hide Xor;
    for i := 0 to 8
      invariant forall k | 0 <= k < i :: h[k] == Xor(Xor(old(h[k]), v[k]), v[k + 8])
      invariant forall k | i <= k < 8 :: h[k] == old(h[k])
    {
      h[i] := Xor(Xor(h[i], v[i]), v[i + 8]);
    }
  }

  /** blake2s_compress_scalar */
  method CompressScalar(h: array<u32>, block: seq<byte>, t0: u32, t1: u32, f0: u32, f1: u32)
    requires h.Length == 8 && |block| == 64
    modifies h
    ensures h[..] == Compressed(old(h[..]), Load(block), t0, t1, f0, f1)
  {
    hide Rounds, Setup, Fold, Load;
    var m := LoadWords(block);
    var v := SetupScalar(h, t0, t1, f0, f1);
    RoundsScalar(v, m, SIGMA);
    FoldScalar(h, v);
  }

  method RoundsScalar(v: array<u32>, m: Sixteen, sigma: seq<Schedule>)
    requires v.Length == 16
    modifies v
    ensures v[..] == Rounds(old(v[..]), m, sigma, |sigma|)
  {
    hide Columns, Diagonals;
    for i := 0 to |sigma|
      invariant v[..] == Rounds(old(v[..]), m, sigma, i)
    {
      RoundScalar(v, m, sigma[i]);
    }
  }
}
