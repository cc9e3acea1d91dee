/** ChaCha20 on bit vectors. */
module ChaChaBits {
  import opened MachineInts
  import opened Words
  import opened WordBits
  import opened Rows
  import opened StateBits
  import opened ChaCha20

  function QuarterBits(q: Four): Four {
    var a := AddV(q.a, q.b);
    var d := Rot16(XorV(q.d, a));
    var c := AddV(q.c, d);
    var b := Rot12(XorV(q.b, c));
    var a := AddV(a, b);
    var d := Rot8(XorV(d, a));
    var c := AddV(c, d);
    Four(a, Rot7(XorV(b, c)), c, d)
  }

  lemma QuarterValue(q: Four)
    ensures Quarter(Values(q)) == Values(QuarterBits(q))
  {
    hide Value, Add, Xor, Rotl, AddV, XorV, Rot16, Rot12, Rot8, Rot7;
    ValueAdd(q.a, q.b);
    var a := AddV(q.a, q.b);
    ValueXor(q.d, a);
    Value16(XorV(q.d, a));
    var d := Rot16(XorV(q.d, a));
    ValueAdd(q.c, d);
    var c := AddV(q.c, d);
    ValueXor(q.b, c);
    Value12(XorV(q.b, c));
    var b := Rot12(XorV(q.b, c));
    ValueAdd(a, b);
    var a' := AddV(a, b);
    ValueXor(d, a');
    Value8(XorV(d, a'));
    var d' := Rot8(XorV(d, a'));
    ValueAdd(c, d');
    ValueXor(b, AddV(c, d'));
    Value7(XorV(b, AddV(c, d')));
  }

  lemma QuarterAt(q: Four) returns (r: Four)
    ensures r == QuarterBits(q) && Quarter(Values(q)) == Values(r)
  {
    hide Quarter, QuarterBits, Values;
    r := QuarterBits(q);
    QuarterValue(q);
  }

  function ColumnsBits(v: Vector): Vector {
    var q0 := QuarterBits(Four(v.v0, v.v4, v.v8, v.v12));
    var q1 := QuarterBits(Four(v.v1, v.v5, v.v9, v.v13));
    var q2 := QuarterBits(Four(v.v2, v.v6, v.v10, v.v14));
    var q3 := QuarterBits(Four(v.v3, v.v7, v.v11, v.v15));
    Vector(q0.a, q1.a, q2.a, q3.a, q0.b, q1.b, q2.b, q3.b,
           q0.c, q1.c, q2.c, q3.c, q0.d, q1.d, q2.d, q3.d)
  }

  function DiagonalsBits(v: Vector): Vector {
    var q0 := QuarterBits(Four(v.v0, v.v5, v.v10, v.v15));
    var q1 := QuarterBits(Four(v.v1, v.v6, v.v11, v.v12));
    var q2 := QuarterBits(Four(v.v2, v.v7, v.v8, v.v13));
    var q3 := QuarterBits(Four(v.v3, v.v4, v.v9, v.v14));
    Vector(q0.a, q1.a, q2.a, q3.a, q3.b, q0.b, q1.b, q2.b,
           q2.c, q3.c, q0.c, q1.c, q1.d, q2.d, q3.d, q0.d)
  }

  function DoubleBits(v: Vector): Vector { DiagonalsBits(ColumnsBits(v)) }

  lemma ColumnsValue(v: Vector)
    ensures Columns(Flat(RowsOf(v))) == Flat(RowsOf(ColumnsBits(v)))
  {
    hide Quarter, QuarterBits, Columns, Values, Value, Flat, Column, SetColumns, RowsOf, Shift, Unshift;
    var r := RowsOf(v);
    ColumnsFlat(r);
    ColumnGet(v, r);
    var q0 := QuarterAt(Four(v.v0, v.v4, v.v8, v.v12));
    var q1 := QuarterAt(Four(v.v1, v.v5, v.v9, v.v13));
    var q2 := QuarterAt(Four(v.v2, v.v6, v.v10, v.v14));
    var q3 := QuarterAt(Four(v.v3, v.v7, v.v11, v.v15));
    ColumnSet(v, r, q0, q1, q2, q3);
  }

  lemma DiagonalsValue(v: Vector)
    ensures Diagonals(Flat(RowsOf(v))) == Flat(RowsOf(DiagonalsBits(v)))
  {
    hide Quarter, QuarterBits, Diagonals, Values, Value, Flat, Column, SetColumns, RowsOf, Shift, Unshift;
    ShiftBack(RowsOf(v));
    var r := Shift(RowsOf(v));
    DiagonalsFlat(r);
    DiagonalGet(v, r);
    var q0 := QuarterAt(Four(v.v0, v.v5, v.v10, v.v15));
    var q1 := QuarterAt(Four(v.v1, v.v6, v.v11, v.v12));
    var q2 := QuarterAt(Four(v.v2, v.v7, v.v8, v.v13));
    var q3 := QuarterAt(Four(v.v3, v.v4, v.v9, v.v14));
    DiagonalSet(v, r, q0, q1, q2, q3);
  }

  /** The state after k double rounds */
  ghost predicate Reached(start: Sixteen, k: nat, v: Vector) {
    DoubleRounds(start, k) == Flat(RowsOf(v))
  }

  lemma OneMore(start: Sixteen, k: nat, v: Vector)
    requires Reached(start, k, v)
    ensures Reached(start, k + 1, DoubleBits(v))
  {
    hide Columns, Diagonals, ColumnsBits, DiagonalsBits, Flat, RowsOf;
    ColumnsValue(v);
    DiagonalsValue(ColumnsBits(v));
  }

  function SumBits(v: Vector, u: Vector): Vector {
    Vector(AddV(v.v0, u.v0), AddV(v.v1, u.v1), AddV(v.v2, u.v2), AddV(v.v3, u.v3),
           AddV(v.v4, u.v4), AddV(v.v5, u.v5), AddV(v.v6, u.v6), AddV(v.v7, u.v7),
           AddV(v.v8, u.v8), AddV(v.v9, u.v9), AddV(v.v10, u.v10), AddV(v.v11, u.v11),
           AddV(v.v12, u.v12), AddV(v.v13, u.v13), AddV(v.v14, u.v14), AddV(v.v15, u.v15))
  }

  lemma SumNth(v: Vector, u: Vector, i: nat)
    requires i < 16
    ensures Nth(SumBits(v, u), i) == AddV(Nth(v, i), Nth(u, i))
  {
    hide AddV;
  }

  /** The last step of the block function */
  lemma SumValue(v: Vector, u: Vector)
    ensures Sum(Flat(RowsOf(v)), Flat(RowsOf(u))) == Flat(RowsOf(SumBits(v, u)))
  {
    hide Add, Value, Flat, RowsOf, Nth, AddV, SumBits;
    forall i | 0 <= i < 16
      ensures Sum(Flat(RowsOf(v)), Flat(RowsOf(u)))[i] == Flat(RowsOf(SumBits(v, u)))[i]
    {
      SumNth(v, u, i);
      FlatNth(u, i);
      FlatNth(v, i);
      FlatNth(SumBits(v, u), i);
      ValueAdd(Nth(v, i), Nth(u, i));
    }
  }
}
