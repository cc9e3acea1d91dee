/** The 4 x 4 state that ChaCha20 and BLAKE2s share, as bit vectors. */
module StateBits {
  import opened MachineInts
  import opened WordBits
  import opened Rows

  datatype Four = Four(a: bv32, b: bv32, c: bv32, d: bv32)

  function Values(q: Four): Quad { Quad(Value(q.a), Value(q.b), Value(q.c), Value(q.d)) }

  /** Sixteen words */
  datatype Vector = Vector(
    v0: bv32, v1: bv32, v2: bv32, v3: bv32, v4: bv32, v5: bv32, v6: bv32, v7: bv32,
    v8: bv32, v9: bv32, v10: bv32, v11: bv32, v12: bv32, v13: bv32, v14: bv32, v15: bv32)

  function Lanes4(x0: bv32, x1: bv32, x2: bv32, x3: bv32): Lanes { Lanes(Value(x0), Value(x1), Value(x2), Value(x3)) }

  function RowsOf(v: Vector): Rows {
    Rows(Lanes4(v.v0, v.v1, v.v2, v.v3), Lanes4(v.v4, v.v5, v.v6, v.v7),
         Lanes4(v.v8, v.v9, v.v10, v.v11), Lanes4(v.v12, v.v13, v.v14, v.v15))
  }

  function Nth(m: Vector, i: nat): bv32 {
    if i == 0 then m.v0 else if i == 1 then m.v1 else if i == 2 then m.v2 else if i == 3 then m.v3 else
    if i == 4 then m.v4 else if i == 5 then m.v5 else if i == 6 then m.v6 else if i == 7 then m.v7 else
    if i == 8 then m.v8 else if i == 9 then m.v9 else if i == 10 then m.v10 else if i == 11 then m.v11 else
    if i == 12 then m.v12 else if i == 13 then m.v13 else if i == 14 then m.v14 else m.v15
  }

  lemma FlatNth(v: Vector, i: nat)
    requires i < 16
    ensures Flat(RowsOf(v))[i] == Value(Nth(v, i))
  {
    hide Value, Nth, RowsOf, Flat, Lane;
    FlatLane(RowsOf(v), i);
    LaneNth(v, i);
  }

  function RowAt(r: Rows, i: nat): Lanes {
    if i < 4 then r.a else if i < 8 then r.b else if i < 12 then r.c else r.d
  }

  lemma FlatLane(r: Rows, i: nat)
    requires i < 16
    ensures Flat(r)[i] == Lane(RowAt(r, i), i % 4)
  {
    assert i < 4 || 4 <= i < 8 || 8 <= i < 12 || 12 <= i;
  }

  lemma LaneNth(v: Vector, i: nat)
    requires i < 16
    ensures Lane(RowAt(RowsOf(v), i), i % 4) == Value(Nth(v, i))
  {
    hide Value;
  }

  lemma ColumnSet(v: Vector, r: Rows, q0: Four, q1: Four, q2: Four, q3: Four)
    requires r == RowsOf(v)
    ensures SetColumns(r, Values(q0), Values(q1), Values(q2), Values(q3)) ==
      RowsOf(Vector(q0.a, q1.a, q2.a, q3.a, q0.b, q1.b, q2.b, q3.b,
      q0.c, q1.c, q2.c, q3.c, q0.d, q1.d, q2.d, q3.d))
  {
    hide Value;
  }

  lemma ColumnGet(v: Vector, r: Rows)
    requires r == RowsOf(v)
    ensures Column(r, 0) == Values(Four(v.v0, v.v4, v.v8, v.v12))
    ensures Column(r, 1) == Values(Four(v.v1, v.v5, v.v9, v.v13))
    ensures Column(r, 2) == Values(Four(v.v2, v.v6, v.v10, v.v14))
    ensures Column(r, 3) == Values(Four(v.v3, v.v7, v.v11, v.v15))
  {
    hide Value;
  }

  lemma DiagonalSet(v: Vector, r: Rows, q0: Four, q1: Four, q2: Four, q3: Four)
    requires r == Shift(RowsOf(v))
    ensures Unshift(SetColumns(r, Values(q0), Values(q1), Values(q2), Values(q3))) ==
      RowsOf(Vector(q0.a, q1.a, q2.a, q3.a, q3.b, q0.b, q1.b, q2.b,
      q2.c, q3.c, q0.c, q1.c, q1.d, q2.d, q3.d, q0.d))
  {
    hide Value;
  }

  lemma DiagonalGet(v: Vector, r: Rows)
    requires r == Shift(RowsOf(v))
    ensures Column(r, 0) == Values(Four(v.v0, v.v5, v.v10, v.v15))
    ensures Column(r, 1) == Values(Four(v.v1, v.v6, v.v11, v.v12))
    ensures Column(r, 2) == Values(Four(v.v2, v.v7, v.v8, v.v13))
    ensures Column(r, 3) == Values(Four(v.v3, v.v4, v.v9, v.v14))
  {
    hide Value;
  }
}
