/**
 The ChaCha20 block function: section 2.3 of RFC 8439, the NEON code of
 src/wg_chacha20_neon.c and the scalar code of library/crypto/monocypher.c.
 */
module ChaCha20 {
  import opened MachineInts
  import opened Words
  import opened Rows
  import opened Bytes

  // Section 2.1 and 2.3.

  function Quarter(q: Quad): Quad {
    var a := Add(q.a, q.b);
    var d := Rotl(Xor(q.d, a), 16);
    var c := Add(q.c, d);
    var b := Rotl(Xor(q.b, c), 12);
    var a := Add(a, b);
    var d := Rotl(Xor(d, a), 8);
    var c := Add(c, d);
    Quad(a, Rotl(Xor(b, c), 7), c, d)
  }

  function Turn(v: Sixteen, i: nat, j: nat, k: nat, l: nat): Sixteen
    requires i < 16 && j < 16 && k < 16 && l < 16
  {
    Put(v, i, j, k, l, Quarter(Get(v, i, j, k, l)))
  }

  function Columns(v: Sixteen): Sixteen {
    Turn(Turn(Turn(Turn(v, 0, 4, 8, 12), 1, 5, 9, 13), 2, 6, 10, 14), 3, 7, 11, 15)
  }

  function Diagonals(v: Sixteen): Sixteen {
    Turn(Turn(Turn(Turn(v, 0, 5, 10, 15), 1, 6, 11, 12), 2, 7, 8, 13), 3, 4, 9, 14)
  }

  function DoubleRounds(v: Sixteen, n: nat): Sixteen {
    if n == 0 then v else Diagonals(Columns(DoubleRounds(v, n - 1)))
  }

  function Sum(v: Sixteen, w: Sixteen): Sixteen {
    seq(16, i requires 0 <= i < 16 => Add(v[i], w[i]))
  }

  const DOUBLE_ROUNDS: nat := 10

  /** The block function on a state */
  function Block(v: Sixteen): Sixteen { Sum(DoubleRounds(v, DOUBLE_ROUNDS), v) }

  // The NEON code.

  /** quarterround_neon */
  method QuarterNeon(m: Rows) returns (r: Rows)
    ensures r == SetColumns(m, Quarter(Column(m, 0)), Quarter(Column(m, 1)), Quarter(Column(m, 2)),
      Quarter(Column(m, 3)))
  {
    var a, b, c, d := m.a, m.b, m.c, m.d;
    a := AddLanes(a, b);
    d := XorLanes(d, a);
    SwapLanesRotate(d);
    d := SwapLanes(d);
    hide Add, Xor, Rotl, SwapHalves;
    c := AddLanes(c, d);
    b := XorLanes(b, c);
    b := RotlLanes(b, 12);
    a := AddLanes(a, b);
    d := XorLanes(d, a);
    d := RotlLanes(d, 8);
    c := AddLanes(c, d);
    b := XorLanes(b, c);
    b := RotlLanes(b, 7);
    r := Rows(a, b, c, d);
  }

  lemma TurnColumn(r: Rows, i: nat) returns (r': Rows)
    requires i < 4
    ensures r' == SetColumn(r, i, Quarter(Column(r, i)))
    ensures Turn(Flat(r), i, 4 + i, 8 + i, 12 + i) == Flat(r')
  {
    hide Quarter, Flat, Get, Put;
    r' := SetColumn(r, i, Quarter(Column(r, i)));
    GetColumn(r, i);
    PutColumn(r, i, Quarter(Column(r, i)));
  }

  lemma TurnDiagonal(r: Rows, i: nat) returns (r': Rows)
    requires i < 4
    ensures r' == SetColumn(r, i, Quarter(Column(r, i)))
    ensures Turn(Flat(Unshift(r)), i, 4 + (i + 1) % 4, 8 + (i + 2) % 4, 12 + (i + 3) % 4) == Flat(Unshift(r'))
  {
    ShiftBack(r);
    hide Quarter, Flat, Get, Put, Shift, Unshift;
    r' := SetColumn(r, i, Quarter(Column(r, i)));
    GetDiagonal(Unshift(r), i);
    PutDiagonal(Unshift(r), i, Quarter(Column(r, i)));
  }

  lemma ColumnsFlat(r: Rows)
    ensures Columns(Flat(r))
         == Flat(SetColumns(r, Quarter(Column(r, 0)), Quarter(Column(r, 1)), Quarter(Column(r, 2)),
           Quarter(Column(r, 3))))
  {
    hide Quarter, Flat, Get, Put;
    var r0 := TurnColumn(r, 0);
    var r1 := TurnColumn(r0, 1);
    var r2 := TurnColumn(r1, 2);
    var r3 := TurnColumn(r2, 3);
  }

  lemma DiagonalsFlat(r: Rows)
    ensures Diagonals(Flat(Unshift(r)))
         == Flat(Unshift(SetColumns(r, Quarter(Column(r, 0)), Quarter(Column(r, 1)), Quarter(Column(r, 2)),
           Quarter(Column(r, 3)))))
  {
    hide Quarter, Flat, Get, Put, Unshift;
    var r0 := TurnDiagonal(r, 0);
    var r1 := TurnDiagonal(r0, 1);
    var r2 := TurnDiagonal(r1, 2);
    var r3 := TurnDiagonal(r2, 3);
  }

  /** The loop of chacha20_block_neon_internal, for any number of double rounds */
  method RoundsNeon(m: Rows, n: nat) returns (r: Rows)
    ensures Flat(r) == DoubleRounds(Flat(m), n)
  {
    hide Flat, Quarter, Columns, Diagonals, Ext;
    r := m;
    for i := 0 to n
      invariant Flat(r) == DoubleRounds(Flat(m), i)
    {
      ColumnsFlat(r);
      r := QuarterNeon(r);
      ShiftBack(r);
      r := Rows(r.a, Ext(r.b, 1), Ext(r.c, 2), Ext(r.d, 3));
      DiagonalsFlat(r);
      r := QuarterNeon(r);
      r := Rows(r.a, Ext(r.b, 3), Ext(r.c, 2), Ext(r.d, 1));
    }
  }

  /** chacha20_block_neon_internal */
  method BlockNeon(v: Sixteen) returns (out: Sixteen)
    ensures out == Block(v)
  {
    hide DoubleRounds, Add;
    var rows := Rows(Row(v, 0), Row(v, 4), Row(v, 8), Row(v, 12));
    var r := RoundsNeon(rows, DOUBLE_ROUNDS);
    assert Flat(rows) == v;
    out := Flat(Rows(AddLanes(r.a, rows.a), AddLanes(r.b, rows.b), AddLanes(r.c, rows.c), AddLanes(r.d, rows.d)));
    SumRows(r, rows);
  }

  lemma SumRows(r: Rows, s: Rows)
    ensures Flat(Rows(AddLanes(r.a, s.a), AddLanes(r.b, s.b), AddLanes(r.c, s.c), AddLanes(r.d, s.d)))
      == Sum(Flat(r), Flat(s))
  {
    hide Add;
  }

  // The scalar code.

  /** The macro QUARTERROUND, on four of the sixteen temporaries */
  method QuarterScalar(t: array<u32>, i: nat, j: nat, k: nat, l: nat)
    requires t.Length == 16 && i < j < 16 && j != k && k < 16 && l < 16 && i < k && i < l && j != l && k != l
    modifies t
    ensures t[..] == Turn(old(t[..]), i, j, k, l)
  {
    hide Add, Xor, Rotl;
    t[i] := Add(t[i], t[j]);
    t[l] := Rotl(Xor(t[l], t[i]), 16);
    t[k] := Add(t[k], t[l]);
    t[j] := Rotl(Xor(t[j], t[k]), 12);
    t[i] := Add(t[i], t[j]);
    t[l] := Rotl(Xor(t[l], t[i]), 8);
    t[k] := Add(t[k], t[l]);
    t[j] := Rotl(Xor(t[j], t[k]), 7);
  }

  /** chacha20_rounds */
  method RoundsScalar(v: Sixteen) returns (out: Sixteen)
    ensures out == DoubleRounds(v, DOUBLE_ROUNDS)
  {
    hide Turn;
    var t := new u32[16](i requires 0 <= i < 16 => v[i]);
    assert t[..] == v;
    for i := 0 to DOUBLE_ROUNDS
      invariant t[..] == DoubleRounds(v, i)
    {
      QuarterScalar(t, 0, 4, 8, 12);
      QuarterScalar(t, 1, 5, 9, 13);
      QuarterScalar(t, 2, 6, 10, 14);
      QuarterScalar(t, 3, 7, 11, 15);
      QuarterScalar(t, 0, 5, 10, 15);
      QuarterScalar(t, 1, 6, 11, 12);
      QuarterScalar(t, 2, 7, 8, 13);
      QuarterScalar(t, 3, 4, 9, 14);
    }
    out := t[..];
  }
}
