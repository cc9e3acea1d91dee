/**
 BLAKE2s on bit vectors: what its rounds compute, in a form that can be evaluated.
 */
module Blake2sBits {
  import opened MachineInts
  import opened Words
  import opened WordBits
  import opened Rows
  import opened StateBits
  import opened Blake2sCompress
  import opened Blake2s
  import opened Bytes

  /** A rotation to the right by 16, 12, 8 or 7 is one to the left by 16, 20, 24 or 25. */
  function GBits(q: Four, x: bv32, y: bv32): Four {
    var a := AddV(AddV(q.a, q.b), x);
    var d := Rot16(XorV(q.d, a));
    var c := AddV(q.c, d);
    var b := Rot20(XorV(q.b, c));
    var a := AddV(AddV(a, b), y);
    var d := Rot24(XorV(d, a));
    var c := AddV(c, d);
    Four(a, Rot25(XorV(b, c)), c, d)
  }

  lemma GValue(q: Four, x: bv32, y: bv32)
    ensures G(Values(q), Value(x), Value(y)) == Values(GBits(q, x, y))
  {
    hide Value, Add, Xor, Rotl, AddV, XorV, Rot16, Rot20, Rot24, Rot25;
    var a := AddV(AddV(q.a, q.b), x);
    ValueAdd(q.a, q.b);
    ValueAdd(AddV(q.a, q.b), x);
    ValueXor(q.d, a);
    Value16(XorV(q.d, a));
    var d := Rot16(XorV(q.d, a));
    ValueAdd(q.c, d);
    var c := AddV(q.c, d);
    ValueXor(q.b, c);
    Value20(XorV(q.b, c));
    var b := Rot20(XorV(q.b, c));
    ValueAdd(a, b);
    ValueAdd(AddV(a, b), y);
    var a' := AddV(AddV(a, b), y);
    ValueXor(d, a');
    Value24(XorV(d, a'));
    var d' := Rot24(XorV(d, a'));
    ValueAdd(c, d');
    ValueXor(b, AddV(c, d'));
    Value25(XorV(b, AddV(c, d')));
  }

  function ColumnsBits(v: Vector, m: Vector): Vector {
    var q0 := GBits(Four(v.v0, v.v4, v.v8, v.v12), m.v0, m.v1);
    var q1 := GBits(Four(v.v1, v.v5, v.v9, v.v13), m.v2, m.v3);
    var q2 := GBits(Four(v.v2, v.v6, v.v10, v.v14), m.v4, m.v5);
    var q3 := GBits(Four(v.v3, v.v7, v.v11, v.v15), m.v6, m.v7);
    Vector(q0.a, q1.a, q2.a, q3.a, q0.b, q1.b, q2.b, q3.b,
           q0.c, q1.c, q2.c, q3.c, q0.d, q1.d, q2.d, q3.d)
  }

  function DiagonalsBits(v: Vector, m: Vector): Vector {
    var q0 := GBits(Four(v.v0, v.v5, v.v10, v.v15), m.v8, m.v9);
    var q1 := GBits(Four(v.v1, v.v6, v.v11, v.v12), m.v10, m.v11);
    var q2 := GBits(Four(v.v2, v.v7, v.v8, v.v13), m.v12, m.v13);
    var q3 := GBits(Four(v.v3, v.v4, v.v9, v.v14), m.v14, m.v15);
    Vector(q0.a, q1.a, q2.a, q3.a, q3.b, q0.b, q1.b, q2.b,
           q2.c, q3.c, q0.c, q1.c, q1.d, q2.d, q3.d, q0.d)
  }

  function RoundBits(v: Vector, m: Vector): Vector { DiagonalsBits(ColumnsBits(v, m), m) }

  /** The words of a block in the order that a schedule uses them */
  predicate Scheduled(w: Sixteen, s: Schedule, m: Vector) {
    forall i | 0 <= i < 16 :: Word(w, s, i) == Value(Nth(m, i))
  }

  lemma GAt(q: Four, w: Sixteen, s: Schedule, m: Vector, i: nat) returns (r: Four)
    requires Scheduled(w, s, m) && i < 15
    ensures r == GBits(q, Nth(m, i), Nth(m, i + 1))
    ensures G(Values(q), Word(w, s, i), Word(w, s, i + 1)) == Values(r)
  {
    hide G, GBits, Value, Values, Word, Nth;
    r := GBits(q, Nth(m, i), Nth(m, i + 1));
    GValue(q, Nth(m, i), Nth(m, i + 1));
  }

  lemma ColumnsValue(v: Vector, w: Sixteen, s: Schedule, m: Vector)
    requires Scheduled(w, s, m)
    ensures Columns(Flat(RowsOf(v)), w, s) == Flat(RowsOf(ColumnsBits(v, m)))
  {
    hide G, GBits, Columns, Values, Value, Word, Flat, Column, SetColumns, RowsOf, Shift, Unshift, Scheduled;
    var r := RowsOf(v);
    ColumnsFlat(r, w, s);
    ColumnGet(v, r);
    var q0 := GAt(Four(v.v0, v.v4, v.v8, v.v12), w, s, m, 0);
    var q1 := GAt(Four(v.v1, v.v5, v.v9, v.v13), w, s, m, 2);
    var q2 := GAt(Four(v.v2, v.v6, v.v10, v.v14), w, s, m, 4);
    var q3 := GAt(Four(v.v3, v.v7, v.v11, v.v15), w, s, m, 6);
    ColumnSet(v, r, q0, q1, q2, q3);
  }

  lemma DiagonalsValue(v: Vector, w: Sixteen, s: Schedule, m: Vector)
    requires Scheduled(w, s, m)
    ensures Diagonals(Flat(RowsOf(v)), w, s) == Flat(RowsOf(DiagonalsBits(v, m)))
  {
    hide G, GBits, Diagonals, Values, Value, Word, Flat, Column, SetColumns, RowsOf, Shift, Unshift, Scheduled;
    ShiftBack(RowsOf(v));
    var r := Shift(RowsOf(v));
    DiagonalsFlat(r, w, s);
    DiagonalGet(v, r);
    var q0 := GAt(Four(v.v0, v.v5, v.v10, v.v15), w, s, m, 8);
    var q1 := GAt(Four(v.v1, v.v6, v.v11, v.v12), w, s, m, 10);
    var q2 := GAt(Four(v.v2, v.v7, v.v8, v.v13), w, s, m, 12);
    var q3 := GAt(Four(v.v3, v.v4, v.v9, v.v14), w, s, m, 14);
    DiagonalSet(v, r, q0, q1, q2, q3);
  }

  lemma RoundValue(v: Vector, w: Sixteen, s: Schedule, m: Vector)
    requires Scheduled(w, s, m)
    ensures Diagonals(Columns(Flat(RowsOf(v)), w, s), w, s) == Flat(RowsOf(RoundBits(v, m)))
  {
    hide Columns, Diagonals, ColumnsBits, DiagonalsBits, Scheduled, Flat, RowsOf;
    ColumnsValue(v, w, s, m);
    DiagonalsValue(ColumnsBits(v, m), w, s, m);
  }

  /** The vector after k rounds */
  ghost predicate Reached(w: Sixteen, start: Sixteen, k: nat, v: Vector) {
    k <= |SIGMA| && Rounds(start, w, SIGMA, k) == Flat(RowsOf(v))
  }

  lemma Advance(w: Sixteen, start: Sixteen, k: nat, v: Vector, m: Vector)
    requires Reached(w, start, k, v) && k < |SIGMA| && Scheduled(w, SIGMA[k], m)
    ensures Reached(w, start, k + 1, RoundBits(v, m))
  {
    hide Columns, Diagonals, RoundBits, Scheduled, Flat, RowsOf;
    RoundValue(v, w, SIGMA[k], m);
  }

  /** The state that starts a compression is the first half of its vector. */
  lemma FoldValue(h: Eight, u: Vector, v: Vector)
    requires h == Param(32, 0) && Initial(u)
    ensures forall i | 0 <= i < 8 :: Fold(h, Flat(RowsOf(v)))[i] == FoldAt(Nth(u, i), Nth(v, i), Nth(v, i + 8))
  {
    hide Xor, Value, FoldAt, Flat, RowsOf, Nth, Param, Initial;
    forall i | 0 <= i < 8
      ensures Fold(h, Flat(RowsOf(v)))[i] == FoldAt(Nth(u, i), Nth(v, i), Nth(v, i + 8))
    {
      ParamState(u, i);
      FlatNth(v, i);
      FlatNth(v, i + 8);
      FoldOne(Nth(u, i), Nth(v, i), Nth(v, i + 8));
    }
  }

  function FoldAt(h: bv32, x: bv32, y: bv32): u32 { Value(XorV(XorV(h, x), y)) }

  lemma FoldOne(h: bv32, x: bv32, y: bv32)
    ensures Xor(Xor(Value(h), Value(x)), Value(y)) == FoldAt(h, x, y)
  {
    hide Xor, Value, XorV;
    ValueXor(h, x);
    ValueXor(XorV(h, x), y);
  }

  lemma FoldIs(h: bv32, x: bv32, y: bv32, z: bv32)
    requires XorV(XorV(h, x), y) == z
    ensures FoldAt(h, x, y) == Value(z)
  {}

  lemma IvValues()
    ensures IV == [Value(0x6A09E667), Value(0xBB67AE85), Value(0x3C6EF372), Value(0xA54FF53A),
                   Value(0x510E527F), Value(0x9B05688C), Value(0x1F83D9AB), Value(0x5BE0CD19)]
  {
    hide Value;
    ValueHex(0x6A09E667);
    ValueHex(0xBB67AE85);
    ValueHex(0x3C6EF372);
    ValueHex(0xA54FF53A);
    ValueHex(0x510E527F);
    ValueHex(0x9B05688C);
    ValueHex(0x1F83D9AB);
    ValueHex(0x5BE0CD19);
  }

  /** The initial state for 32 bytes of output and no key, as bits */
  predicate Initial(u: Vector) {
    && u.v0 == 0x6B08E647 && u.v1 == 0xBB67AE85 && u.v2 == 0x3C6EF372 && u.v3 == 0xA54FF53A
    && u.v4 == 0x510E527F && u.v5 == 0x9B05688C && u.v6 == 0x1F83D9AB && u.v7 == 0x5BE0CD19
  }

  lemma ParamState(u: Vector, i: nat)
    requires Initial(u) && i < 8
    ensures Param(32, 0)[i] == Value(Nth(u, i))
  {
    hide Value;
    IvValues();
    ParamValue();
  }

  /** The vector that starts the last compression, at offset t */
  predicate Starting(t: bv32, u: Vector) {
    && Initial(u)
    && u.v8 == 0x6A09E667 && u.v9 == 0xBB67AE85 && u.v10 == 0x3C6EF372 && u.v11 == 0xA54FF53A
    && u.v12 == XorV(t, 0x510E527F) && u.v13 == 0x9B05688C
    && u.v14 == XorV(0xFFFF_FFFF, 0x1F83D9AB) && u.v15 == 0x5BE0CD19
  }

  lemma SetupValue(h: Eight, t: bv32, u: Vector)
    requires h == Param(32, 0) && Starting(t, u)
    ensures Setup(h, Value(t), 0, 0xFFFF_FFFF, 0) == Flat(RowsOf(u))
  {
    hide Xor, Value, Flat, RowsOf, XorV, Param, Initial;
    IvValues();
    ValueHex(0xFFFF_FFFF);
    ValueXor(t, 0x510E527F);
    ValueXor(0xFFFF_FFFF, 0x1F83D9AB);
    XorNothing(0x9B05688C);
    XorNothing(0x5BE0CD19);
    forall i | 0 <= i < 16
      ensures Setup(h, Value(t), 0, 0xFFFF_FFFF, 0)[i] == Flat(RowsOf(u))[i]
    {
      FlatNth(u, i);
      if i < 8 { ParamState(u, i); }
    }
  }

  lemma XorNothing(x: bv32)
    ensures Xor(0, Value(x)) == Value(x)
  {
    hide Xor, Value;
    ValueHex(0);
    ValueXor(0, x);
  }

  /** The initial state for 32 bytes of output and no key */
  lemma ParamValue()
    ensures Param(32, 0) == IV[0 := Value(0x6B08E647)]
  {
    hide Xor, Value;
    IvValues();
    ValueHex(0x0101_0000);
    ValueHex(32);
    ValueHex(0);
    ValueXor(0x0101_0000, 32);
    ValueXor(0x6A09E667, 0x0101_0020);
    ValueXor(0x6B08E647, 0);
  }

  /** A message of one block, without a key */
  lemma OneBlock(data: seq<byte>)
    requires 0 < |data| <= BLOCK
    ensures Hash(32, [], data)
      == Store32All(Compressed(Param(32, 0), Load(Padded(data)), |data| as u32, 0, 0xFFFF_FFFF, 0))
  {
    hide Compressed, Param, Store32All, Load;
    LastUnique(|data|, 0);
    assert KeyBlock([]) + data == data && data[..0] == [] && data[0..] == data;
  }
}
