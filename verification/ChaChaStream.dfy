/**
 Encryption with the ChaCha20 key stream (section 2.4 of RFC 8439): the NEON code
 with its 32-bit counter and Monocypher's with a 64-bit one.
 */
module ChaChaStream {
  import opened MachineInts
  import opened Words
  import opened Rows
  import opened ChaCha20
  import opened Bytes
  import Bits

  /** The state: constants, key, a 64-bit counter and eight bytes of nonce */
  function Initial(key: seq<byte>, nonce: seq<byte>, counter: nat): Sixteen
    requires |key| == 32 && |nonce| == 8
  {
    [0x61707865, 0x3320646e, 0x79622d32, 0x6b206574,
     Load32(key, 0), Load32(key, 4), Load32(key, 8), Load32(key, 12),
     Load32(key, 16), Load32(key, 20), Load32(key, 24), Load32(key, 28),
     Low(counter), High(counter), Load32(nonce, 0), Load32(nonce, 4)]
  }

  /** One block of key stream */
  function Stream(key: seq<byte>, nonce: seq<byte>, counter: nat): (r: seq<byte>)
    requires |key| == 32 && |nonce| == 8
    ensures |r| == 64
  {
    Store32All(Block(Initial(key, nonce, counter)))
  }

  /** The i-th byte of the stream that starts at a 64-bit counter */
  function ByteFrom(key: seq<byte>, nonce: seq<byte>, counter: nat, i: nat): byte
    requires |key| == 32 && |nonce| == 8
  {
    Stream(key, nonce, counter + i / 64)[i % 64]
  }

  /** Byte-wise xor with that stream */
  function XorFrom(s: seq<byte>, key: seq<byte>, nonce: seq<byte>, counter: nat): (r: seq<byte>)
    requires |key| == 32 && |nonce| == 8
    ensures |r| == |s|
  {
    seq(|s|, i requires 0 <= i < |s| => XorByte(s[i], ByteFrom(key, nonce, counter, i)))
  }

  /** The counter of the RFC as a 64-bit one: the first nonce word is its high half, and the low half wraps. */
  function Counter(nonce: seq<byte>, counter: nat): nat
    requires |nonce| == 12
  {
    counter % TWO_32 + TWO_32*(Load32(nonce, 0) as int)
  }

  /** The i-th byte of the RFC's stream: 12 bytes of nonce, a 32-bit counter */
  function StreamByte(key: seq<byte>, nonce: seq<byte>, counter: nat, i: nat): byte
    requires |key| == 32 && |nonce| == 12
  {
    Stream(key, nonce[4..], Counter(nonce, counter + i / 64))[i % 64]
  }

  /** The RFC's encryption */
  function XorStream(s: seq<byte>, key: seq<byte>, nonce: seq<byte>, counter: nat): (r: seq<byte>)
    requires |key| == 32 && |nonce| == 12
    ensures |r| == |s|
  {
    seq(|s|, i requires 0 <= i < |s| => XorByte(s[i], StreamByte(key, nonce, counter, i)))
  }

  /** Encrypting twice with the same key, nonce and counter gives the text back. */
  lemma XorStreamTwice(s: seq<byte>, key: seq<byte>, nonce: seq<byte>, counter: nat)
    requires |key| == 32 && |nonce| == 12
    ensures XorStream(XorStream(s, key, nonce, counter), key, nonce, counter) == s
  {
    hide XorByte, StreamByte;
    var t := XorStream(s, key, nonce, counter);
    forall i | 0 <= i < |s|
      ensures XorStream(t, key, nonce, counter)[i] == s[i]
    {
      XorByteTwice(s[i], StreamByte(key, nonce, counter, i));
    }
  }

  lemma XorFromTwice(s: seq<byte>, key: seq<byte>, nonce: seq<byte>, counter: nat)
    requires |key| == 32 && |nonce| == 8
    ensures XorFrom(XorFrom(s, key, nonce, counter), key, nonce, counter) == s
  {
    hide XorByte, ByteFrom;
    var t := XorFrom(s, key, nonce, counter);
    forall i | 0 <= i < |s|
      ensures XorFrom(t, key, nonce, counter)[i] == s[i]
    {
      XorByteTwice(s[i], ByteFrom(key, nonce, counter, i));
    }
  }

  /** The two counters name the same blocks as long as the 32-bit one does not wrap. */
  lemma SameStream(s: seq<byte>, key: seq<byte>, nonce: seq<byte>, counter: nat)
    requires |key| == 32 && |nonce| == 12 && 64*counter + |s| <= 64*TWO_32
    ensures XorFrom(s, key, nonce[4..], Counter(nonce, counter)) == XorStream(s, key, nonce, counter)
  {
    hide XorByte, Stream;
    forall i | 0 <= i < |s|
      ensures ByteFrom(key, nonce[4..], Counter(nonce, counter), i) == StreamByte(key, nonce, counter, i)
    {
      SameCounter(nonce, counter, i / 64);
    }
  }

  lemma SameCounter(nonce: seq<byte>, counter: nat, n: nat)
    requires |nonce| == 12 && counter + n < TWO_32
    ensures Counter(nonce, counter) + n == Counter(nonce, counter + n)
  {
    hide Load32;
  }

  // A word at a time.

  /** Xor of a word is xor of its bytes. */
  lemma XorWord(s: seq<byte>, w: u32)
    requires |s| == 4
    ensures Store32(Xor(Load32(s, 0), w)) == seq(4, i requires 0 <= i < 4 => XorByte(s[i], Store32(w)[i]))
  {
    var t := Store32(w);
    var x := seq(4, i requires 0 <= i < 4 => XorByte(s[i], t[i]));
    FourBytes(s);
    FourBytes(t);
    FourBytes(x);
    hide LE, XorByte, Store32, XorBits, Horner, Load32;
    XorFour(s[0], s[1], s[2], s[3], t[0], t[1], t[2], t[3]);
    assert x[0] == XorByte(s[0], t[0]) && x[1] == XorByte(s[1], t[1]) && x[2] == XorByte(s[2], t[2])
      && x[3] == XorByte(s[3], t[3]);
    LEInjective(Store32(Xor(Load32(s, 0), w)), x);
  }

  lemma FourBytes(s: seq<byte>)
    requires |s| == 4
    ensures LE(s) == Load32(s, 0) as int
    ensures LE(s) == Horner(s[0] as int, Horner(s[1] as int, Horner(s[2] as int, s[3] as int)))
  {
    assert s[0..] == s && s[4..] == [];
    Load32LE(s, 0);
  }

  lemma XorPair(a: byte, a': nat, b: byte, b': nat, n: nat, x: nat)
    requires XorBits(a', b', n) == x
    ensures XorBits(a as int + 0x100*a', b as int + 0x100*b', 8 + n) == XorByte(a, b) as int + 0x100*x
  {
    XorOne(a, b);
    Bits.Pow2Byte();
    hide XorBits;
    XorSplit(a as int, a', b as int, b', 8, n);
    ShlByte(a');
    ShlByte(b');
    ShlByte(x);
  }

  /** Horner's form of a word */
  function Horner(a: int, rest: int): int { a + 0x100*rest }

  lemma XorHorner(a: byte, a': nat, b: byte, b': nat, n: nat, x: nat)
    requires XorBits(a', b', n) == x
    ensures Horner(a as int, a') >= 0 && Horner(b as int, b') >= 0
    ensures XorBits(Horner(a as int, a'), Horner(b as int, b'), 8 + n) == Horner(XorByte(a, b) as int, x)
  {
    hide XorBits, XorByte;
    XorPair(a, a', b, b', n, x);
  }

  lemma XorFour(a0: byte, a1: byte, a2: byte, a3: byte, b0: byte, b1: byte, b2: byte, b3: byte)
    ensures var a := Horner(a0 as int, Horner(a1 as int, Horner(a2 as int, a3 as int)));
      var b := Horner(b0 as int, Horner(b1 as int, Horner(b2 as int, b3 as int)));
      && a >= 0 && b >= 0
      && XorBits(a, b, 32)
      == Horner(XorByte(a0, b0) as int,
        Horner(XorByte(a1, b1) as int, Horner(XorByte(a2, b2) as int, XorByte(a3, b3) as int)))
  {
    XorOne(a3, b3);
    hide XorBits, XorByte, Horner;
    var u2, v2, x2 := Horner(a2 as int, a3 as int), Horner(b2 as int, b3 as int),
      Horner(XorByte(a2, b2) as int, XorByte(a3, b3) as int);
    XorHorner(a2, a3 as int, b2, b3 as int, 8, XorByte(a3, b3) as int);
    var u1, v1, x1 := Horner(a1 as int, u2), Horner(b1 as int, v2), Horner(XorByte(a1, b1) as int, x2);
    XorHorner(a1, u2, b1, v2, 16, x2);
    XorHorner(a0, u1, b0, v1, 24, x1);
  }

  lemma XorOne(a: byte, b: byte)
    ensures XorBits(a as int, b as int, 8) == XorByte(a, b) as int
  {}

  // In place or from one buffer to another.

  /** Source and target are apart, or the same bytes. */
  predicate Aligned(out: array<byte>, at: nat, input: array<byte>, from: nat, n: nat) {
    at + n <= out.Length && from + n <= input.Length && (out == input ==> at == from)
  }

  method XorWordAt(out: array<byte>, at: nat, input: array<byte>, from: nat, w: u32)
    requires Aligned(out, at, input, from, 4)
    modifies out
    ensures forall k | 0 <= k < 4 :: out[at + k] == XorByte(old(input[from + k]), Store32(w)[k])
    ensures forall k | 0 <= k < out.Length && !(at <= k < at + 4) :: out[k] == old(out[k])
  {
    var s := input[from..from + 4];
    XorWord(s, w);
    hide Store32, XorByte, Xor, Load32;
    var x := Store32(Xor(Load32(s, 0), w));
    out[at], out[at + 1], out[at + 2], out[at + 3] := x[0], x[1], x[2], x[3];
  }

  lemma {:induction false} Stored(ws: seq<u32>, j: nat, k: nat)
    requires j < |ws| && k < 4
    ensures Store32All(ws)[4*j + k] == Store32(ws[j])[k]
  {
    hide Store32;
    if j > 0 { Stored(ws[1..], j - 1, k); }
  }

  /** A whole block, word by word */
  method XorBlock(out: array<byte>, at: nat, input: array<byte>, from: nat, block: Sixteen)
    requires Aligned(out, at, input, from, 64)
    modifies out
    ensures forall k | 0 <= k < 64 :: out[at + k] == XorByte(old(input[from + k]), Store32All(block)[k])
    ensures forall k | 0 <= k < out.Length && !(at <= k < at + 64) :: out[k] == old(out[k])
  {
    hide Store32, Store32All, XorByte;
    for j := 0 to 16
      invariant forall k | 0 <= k < 4*j :: out[at + k] == XorByte(old(input[from + k]), Store32All(block)[k])
      invariant forall k | 0 <= k < out.Length && !(at <= k < at + 4*j) :: out[k] == old(out[k])
    {
      forall k | 0 <= k < 4
        ensures Store32All(block)[4*j + k] == Store32(block[j])[k]
      {
        Stored(block, j, k);
      }
      ghost var was := input[from + 4*j..from + 4*j + 4];
      XorWordAt(out, at + 4*j, input, from + 4*j, block[j]);
      forall k | 4*j <= k < 4*j + 4
        ensures out[at + k] == XorByte(old(input[from + k]), Store32All(block)[k])
      {
        var i := k - 4*j;
        assert out[at + 4*j + i] == XorByte(was[i], Store32(block[j])[i]);
        assert Store32All(block)[4*j + i] == Store32(block[j])[i];
      }
    }
  }

  /** The last, incomplete block */
  method XorTail(out: array<byte>, at: nat, input: array<byte>, from: nat, n: nat, stream: seq<byte>)
    requires n <= |stream| && Aligned(out, at, input, from, n)
    modifies out
    ensures forall k | 0 <= k < n :: out[at + k] == XorByte(old(input[from + k]), stream[k])
    ensures forall k | 0 <= k < out.Length && !(at <= k < at + n) :: out[k] == old(out[k])
  {
    hide XorByte;
    for i := 0 to n
      invariant forall k | 0 <= k < i :: out[at + k] == XorByte(old(input[from + k]), stream[k])
      invariant forall k | 0 <= k < out.Length && !(at <= k < at + i) :: out[k] == old(out[k])
    {
      out[at + i] := XorByte(input[from + i], stream[i]);
    }
  }

  // wg_chacha20_neon.

  lemma InitialAt(key: seq<byte>, nonce: seq<byte>, counter: nat)
    requires |key| == 32 && |nonce| == 12
    ensures Initial(key, nonce[4..], Counter(nonce, counter))
         == Initial(key, nonce[4..], 0)[12 := Low(counter)][13 := Load32(nonce, 0)]
  {
    Halves(counter % TWO_32, Load32(nonce, 0) as int);
    hide Load32;
  }

  lemma Halves(l: nat, h: nat)
    requires l < TWO_32 && h < TWO_32
    ensures Low(l + TWO_32*h) as int == l && High(l + TWO_32*h) as int == h
  {
    Quotient(l + TWO_32*h, h, l);
  }

  /** The state for a block of the RFC's stream, as the NEON code sets it up */
  function State(key: seq<byte>, nonce: seq<byte>, counter: u32): (v: Sixteen)
    requires |key| == 32 && |nonce| == 12
  {
    Initial(key, nonce[4..], 0)[12 := counter][13 := Load32(nonce, 0)]
  }

  lemma StreamState(key: seq<byte>, nonce: seq<byte>, counter: nat)
    requires |key| == 32 && |nonce| == 12
    ensures Stream(key, nonce[4..], Counter(nonce, counter)) == Store32All(Block(State(key, nonce, Low(counter))))
  {
    InitialAt(key, nonce, counter);
    hide Block, Store32All, Initial, Load32, Counter, Low;
  }

  lemma Position(k: nat, b: nat)
    requires 64*b <= k < 64*b + 64
    ensures k / 64 == b && k % 64 == k - 64*b
  {}

  lemma BlockByte(key: seq<byte>, nonce: seq<byte>, counter: nat, b: nat, k: nat)
    requires |key| == 32 && |nonce| == 12 && 64*b <= k < 64*b + 64
    ensures StreamByte(key, nonce, counter, k) == Stream(key, nonce[4..], Counter(nonce, counter + b))[k - 64*b]
  {
    hide Stream, Counter;
    Position(k, b);
  }

  /** One block of the text, or what is left of it */
  method XorNeonBlock(out: array<byte>, at: nat, input: array<byte>, from: nat, n: nat,
                      key: seq<byte>, nonce: seq<byte>, ctr: u32, ghost c: nat) returns (ghost stream: seq<byte>)
    requires |key| == 32 && |nonce| == 12 && n <= 64 && Aligned(out, at, input, from, n) && ctr == Low(c)
    modifies out
    ensures stream == Stream(key, nonce[4..], Counter(nonce, c))
    ensures forall k | 0 <= k < n :: out[at + k] == XorByte(old(input[from + k]), stream[k])
    ensures forall k | 0 <= k < out.Length && !(at <= k < at + n) :: out[k] == old(out[k])
  {
    hide XorByte, State, Block, Store32All, Low, Stream, Counter;
    var block := BlockNeon(State(key, nonce, ctr));
    stream := Store32All(block);
    StreamState(key, nonce, c);
    if n == 64 {
      XorBlock(out, at, input, from, block);
    } else {
      XorTail(out, at, input, from, n, Store32All(block));
    }
  }

  lemma SmallLow(c: u32)
    ensures Low(c as int) == c
  {}

  lemma NextLow(c: nat)
    ensures Low(c + 1) == Add(Low(c), 1)
  {
    Carry(c, 1);
  }

  /** wg_chacha20_neon: byte-wise xor with the key stream, for every length, in place or not */
  method XorNeon(out: array<byte>, at: nat, input: array<byte>, from: nat, len: nat,
                 key: seq<byte>, nonce: seq<byte>, counter: u32)
    requires |key| == 32 && |nonce| == 12 && Aligned(out, at, input, from, len)
    modifies out
    ensures out[at..at + len] == XorStream(old(input[from..from + len]), key, nonce, counter as int)
    ensures out[..at] == old(out[..at]) && out[at + len..] == old(out[at + len..])
  {
    SmallLow(counter);
    hide XorByte, StreamByte, Low, Add;
    var ctr, done := counter, 0;
    ghost var b, c := 0, counter as int;
    while len - done >= 64
      invariant done == 64*b <= len && ctr == Low(c + b)
      invariant forall k | 0 <= k < done :: out[at + k] == XorByte(old(input[from + k]), StreamByte(key, nonce, c, k))
      invariant forall k | 0 <= k < out.Length && !(at <= k < at + done) :: out[k] == old(out[k])
    {
      Advance(out, at, input, from, done, 64, key, nonce, ctr, c, b);
      NextLow(c + b);
      ctr := Add(ctr, 1);
      done, b := done + 64, b + 1;
    }
    if len - done > 0 { Advance(out, at, input, from, done, len - done, key, nonce, ctr, c, b); }
    assert forall k | 0 <= k < len :: out[at + k] == XorByte(old(input[from + k]), StreamByte(key, nonce, c, k));
  }

  /** From the text's first bytes to the next block's end */
  method Advance(out: array<byte>, at: nat, input: array<byte>, from: nat, done: nat, n: nat,
                 key: seq<byte>, nonce: seq<byte>, ctr: u32, ghost c: nat, ghost b: nat)
    requires |key| == 32 && |nonce| == 12 && n <= 64 && done == 64*b && ctr == Low(c + b)
    requires Aligned(out, at, input, from, done + n)
    modifies out
    ensures forall k | done <= k < done + n ::
      out[at + k] == XorByte(old(input[from + k]), StreamByte(key, nonce, c, k))
    ensures forall k | 0 <= k < out.Length && !(at + done <= k < at + done + n) :: out[k] == old(out[k])
  {
    hide XorByte, StreamByte, Low, Stream, Counter;
    ghost var stream := XorNeonBlock(out, at + done, input, from + done, n, key, nonce, ctr, c + b);
    forall k | done <= k < done + n
      ensures out[at + k] == XorByte(old(input[from + k]), StreamByte(key, nonce, c, k))
    {
      BlockByte(key, nonce, c, b, k);
      var i := k - done;
      assert out[at + done + i] == XorByte(old(input[from + done + i]), stream[i]);
    }
  }

  /** wg_chacha20_block_neon */
  method StreamNeon(key: seq<byte>, nonce: seq<byte>, counter: u32) returns (block: seq<byte>)
    requires |key| == 32 && |nonce| == 12
    ensures block == Stream(key, nonce[4..], Counter(nonce, counter as int))
  {
    StreamState(key, nonce, counter as int);
    SmallLow(counter);
    hide Block, Store32All, State, Stream, Counter, Low;
    var words := BlockNeon(State(key, nonce, counter));
    block := Store32All(words);
  }

  // crypto_chacha20_djb.

  /** A block of Monocypher's code: the rounds, then the sum with the input */
  method BlockMono(input: Sixteen) returns (out: Sixteen)
    ensures out == Block(input)
  {
    hide DoubleRounds, Add;
    var pool := RoundsScalar(input);
    out := pool;
    for j := 0 to 16
      invariant forall k | 0 <= k < j :: out[k] == Add(pool[k], input[k])
      invariant forall k | j <= k < 16 :: out[k] == pool[k]
    {
      out := out[j := Add(pool[j], input[j])];
    }
  }

  /** The 64-bit counter in words 12 and 13 moves on. */
  method Tick(input: Sixteen, ghost key: seq<byte>, ghost nonce: seq<byte>, ghost counter: nat) returns (next: Sixteen)
    requires |key| == 32 && |nonce| == 8 && input == Initial(key, nonce, counter)
    ensures next == Initial(key, nonce, counter + 1)
  {
    hide Load32;
    Carry(counter, 1);
    hide Low, High;
    next := input[12 := Add(input[12], 1)];
    if next[12] == 0 { next := next[13 := Add(next[13], 1)]; }
  }

  method StoreWordAt(out: array<byte>, at: nat, w: u32)
    requires at + 4 <= out.Length
    modifies out
    ensures forall k | 0 <= k < 4 :: out[at + k] == Store32(w)[k]
    ensures forall k | 0 <= k < out.Length && !(at <= k < at + 4) :: out[k] == old(out[k])
  {
    hide Store32;
    var x := Store32(w);
    out[at], out[at + 1], out[at + 2], out[at + 3] := x[0], x[1], x[2], x[3];
  }

  /** A whole block without a text */
  method StoreBlock(out: array<byte>, at: nat, block: Sixteen)
    requires at + 64 <= out.Length
    modifies out
    ensures forall k | 0 <= k < 64 :: out[at + k] == Store32All(block)[k]
    ensures forall k | 0 <= k < out.Length && !(at <= k < at + 64) :: out[k] == old(out[k])
  {
    hide Store32, Store32All;
    for j := 0 to 16
      invariant forall k | 0 <= k < 4*j :: out[at + k] == Store32All(block)[k]
      invariant forall k | 0 <= k < out.Length && !(at <= k < at + 4*j) :: out[k] == old(out[k])
    {
      forall k | 0 <= k < 4
        ensures Store32All(block)[4*j + k] == Store32(block[j])[k]
      {
        Stored(block, j, k);
      }
      StoreWordAt(out, at + 4*j, block[j]);
      forall k | 4*j <= k < 4*j + 4
        ensures out[at + k] == Store32All(block)[k]
      {
        var i := k - 4*j;
        assert out[at + 4*j + i] == Store32(block[j])[i];
        assert Store32All(block)[4*j + i] == Store32(block[j])[i];
      }
    }
  }

  /** The text as the caller gives it: in a buffer, whose first bytes may already be overwritten, or none at all */
  ghost predicate Holds(input: array?<byte>, from: nat, text: seq<byte>, done: nat)
    reads input
  {
    if input == null then forall k | 0 <= k < |text| :: text[k] == 0
    else from + |text| <= input.Length && forall k | done <= k < |text| :: input[from + k] == text[k]
  }

  /** One block, or the part of it that is left: xor with the text, or the stream itself */
  method XorMonoBlock(out: array<byte>, at: nat, input: array?<byte>, from: nat, done: nat, n: nat, block: Sixteen,
                      ghost text: seq<byte>)
    requires n <= 64 && done + n <= |text| && at + |text| <= out.Length
    requires Holds(input, from, text, done) && (input == out ==> at == from)
    modifies out
    ensures forall k | 0 <= k < n :: out[at + done + k] == XorByte(text[done + k], Store32All(block)[k])
    ensures forall k | 0 <= k < out.Length && !(at + done <= k < at + done + n) :: out[k] == old(out[k])
    ensures Holds(input, from, text, done + n)
  {
    hide XorByte, Store32All;
    forall x: byte
      ensures XorByte(0, x) == x
    {
      XorZero(x);
    }
    if input == null {
      if n == 64 {
        StoreBlock(out, at + done, block);
      } else {
        var zero := new byte[64](_ => 0);
        XorTail(out, at + done, zero, 0, n, Store32All(block));
      }
    } else if n == 64 {
      XorBlock(out, at + done, input, from + done, block);
    } else {
      XorTail(out, at + done, input, from + done, n, Store32All(block));
    }
  }

  lemma XorZero(x: byte)
    ensures XorByte(0, x) == x
  {
    XorZeroBits(x as int, 8);
    Bits.Pow2Byte();
  }

  lemma {:induction false} XorZeroBits(x: nat, n: nat)
    requires x < Bits.Pow2(n)
    ensures XorBits(0, x, n) == x
  {
    if n > 0 { XorZeroBits(x / 2, n - 1); }
  }

  /** The block's place in the stream */
  lemma StreamBlock(key: seq<byte>, nonce: seq<byte>, c: nat, b: nat, block: Sixteen, k: nat)
    requires |key| == 32 && |nonce| == 8 && block == Block(Initial(key, nonce, c + b)) && k < 64
    ensures ByteFrom(key, nonce, c, 64*b + k) == Store32All(block)[k]
  {
    hide Block, Initial, Store32All;
    Position(64*b + k, b);
  }

  /** The block that follows the first ones, and its place in the stream */
  method AdvanceMono(out: array<byte>, at: nat, input: array?<byte>, from: nat, done: nat, n: nat, state: Sixteen,
                     ghost text: seq<byte>, ghost key: seq<byte>, ghost nonce: seq<byte>, ghost c: nat, ghost b: nat)
    requires |key| == 32 && |nonce| == 8 && done == 64*b && state == Initial(key, nonce, c + b)
    requires n <= 64 && done + n <= |text| && at + |text| <= out.Length
    requires Holds(input, from, text, done) && (input == out ==> at == from)
    modifies out
    ensures forall k | done <= k < done + n :: out[at + k] == XorByte(text[k], ByteFrom(key, nonce, c, k))
    ensures forall k | 0 <= k < out.Length && !(at + done <= k < at + done + n) :: out[k] == old(out[k])
    ensures Holds(input, from, text, done + n)
  {
    hide XorByte, ByteFrom, Block, Initial, Store32All, Holds;
    var block := BlockMono(state);
    XorMonoBlock(out, at, input, from, done, n, block, text);
    forall k | done <= k < done + n
      ensures out[at + k] == XorByte(text[k], ByteFrom(key, nonce, c, k))
    {
      var i := k - done;
      StreamBlock(key, nonce, c, b, block, i);
      assert out[at + done + i] == XorByte(text[done + i], Store32All(block)[i]);
    }
  }

  /**
   crypto_chacha20_djb: xor of the text with the stream, or the stream itself when
   there is no text, and the counter for what comes next
   */
  method XorDjb(out: array<byte>, at: nat, input: array?<byte>, from: nat, len: nat,
                key: seq<byte>, nonce: seq<byte>, counter: u64, ghost text: seq<byte>) returns (next: u64)
    requires |key| == 32 && |nonce| == 8 && |text| == len && at + len <= out.Length
    requires Holds(input, from, text, 0) && (input == out ==> at == from)
    modifies out
    ensures out[at..at + len] == XorFrom(text, key, nonce, counter as int)
    ensures out[..at] == old(out[..at]) && out[at + len..] == old(out[at + len..])
    ensures next as int == (counter as int + Blocks(len)) % TWO_64
  {
    hide XorByte, ByteFrom, Initial, Holds;
    var state, done := Initial(key, nonce, counter as int), 0;
    ghost var c := counter as int;
    for b := 0 to len / 64
      invariant done == 64*b <= len && state == Initial(key, nonce, c + b) && Holds(input, from, text, done)
      invariant forall k | 0 <= k < done :: out[at + k] == XorByte(text[k], ByteFrom(key, nonce, c, k))
      invariant forall k | 0 <= k < out.Length && !(at <= k < at + done) :: out[k] == old(out[k])
    {
      AdvanceMono(out, at, input, from, done, 64, state, text, key, nonce, c, b);
      state := Tick(state, key, nonce, c + b);
      done := done + 64;
    }
    if len % 64 > 0 { AdvanceMono(out, at, input, from, done, len % 64, state, text, key, nonce, c, len / 64); }
    next := NextCounter(state, len % 64 > 0, key, nonce, c + len / 64);
  }

  /** How many blocks a text takes */
  function Blocks(len: nat): nat { len / 64 + if len % 64 > 0 then 1 else 0 }

  /** The 64-bit counter in words 12 and 13, and one more for an incomplete block */
  method NextCounter(state: Sixteen, tail: bool, ghost key: seq<byte>, ghost nonce: seq<byte>, ghost counter: nat)
    returns (next: u64)
    requires |key| == 32 && |nonce| == 8 && state == Initial(key, nonce, counter)
    ensures next as int == (counter + if tail then 1 else 0) % TWO_64
  {
    hide Load32;
    var n := state[12] as int + TWO_32*(state[13] as int);
    TwoWords(counter);
    next := ((n + if tail then 1 else 0) % TWO_64) as u64;
  }

  lemma TwoWords(n: nat)
    ensures Low(n) as int + TWO_32*(High(n) as int) == n % TWO_64
  {
    var q, r := n / TWO_32, n % TWO_32;
    var h, l := q / TWO_32, q % TWO_32;
    assert n == TWO_64*h + (TWO_32*l + r);
    Remainder(n, h, TWO_32*l + r);
  }

  lemma Remainder(n: int, q: int, r: int)
    requires n == TWO_64*q + r && 0 <= r < TWO_64
    ensures n % TWO_64 == r
  {}

  /** What crypto_aead_write asks of it for the authentication key: one block of key stream */
  method StreamDjb(key: seq<byte>, nonce: seq<byte>, counter: u64) returns (block: seq<byte>)
    requires |key| == 32 && |nonce| == 8
    ensures block == Stream(key, nonce, counter as int)
  {
    hide XorByte, Stream;
    var out := new byte[64];
    ghost var text: seq<byte> := seq(64, _ => 0);
    var next := XorDjb(out, 0, null, 0, 64, key, nonce, counter, text);
    block := out[..];
    forall k | 0 <= k < 64
      ensures block[k] == Stream(key, nonce, counter as int)[k]
    {
      XorZero(Stream(key, nonce, counter as int)[k]);
      assert block[k] == out[0..64][k];
    }
  }
}
