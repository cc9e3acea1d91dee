/**
 BLAKE2s over whole messages (section 3.3 of RFC 7693), and the streaming code of
 library/crypto/blake2s.c that holds the last block back.
 */
module Blake2s {
  import opened MachineInts
  import opened Words
  import opened Blake2sCompress
  import opened Bytes
  import opened Bits

  const BLOCK: nat := 64

  /** The initial state: the parameter block is digest length, key length, fanout 1 and depth 1. */
  function Param(outlen: u32, keylen: u32): Eight
    requires keylen <= 64
  {
    IV[0 := Xor(Xor(IV[0], Xor(0x0101_0000, outlen)), 0x100*keylen)]
  }

  /** The compression function F at offset n */
  function F(h: Eight, block: seq<byte>, n: nat, last: bool): Eight
    requires |block| == BLOCK
  {
    Compressed(h, Load(block), Low(n), High(n), if last then 0xFFFF_FFFF else 0, 0)
  }

  /** The state after some full blocks, none of them the last */
  function Chain(h: Eight, d: seq<byte>): Eight
    requires |d| % BLOCK == 0
  {
    if d == [] then h
    else var n := |d| - BLOCK; F(Chain(h, d[..n]), d[n..], |d|, false)
  }

  /** Where the last block begins; it may be full, and is empty only for no data. */
  function Last(length: nat): (n: nat)
    ensures n % BLOCK == 0 && n <= length <= n + BLOCK && (length > 0 ==> n < length)
  {
    if length == 0 then 0 else (length - 1) / BLOCK * BLOCK
  }

  function Padded(s: seq<byte>): (r: seq<byte>)
    requires |s| <= BLOCK
    ensures |r| == BLOCK
  {
    s + seq(BLOCK - |s|, _ => 0)
  }

  function Digest(h: Eight, data: seq<byte>): Eight {
    var n := Last(|data|);
    F(Chain(h, data[..n]), Padded(data[n..]), |data|, true)
  }

  /** The first bytes of a digest */
  function Truncated(h: Eight, outlen: u32): (r: seq<byte>)
    requires outlen <= 32
    ensures |r| == outlen as int
  {
    Store32All(h)[..outlen]
  }

  /** A key becomes a block of its own in front of the message. */
  function KeyBlock(key: seq<byte>): seq<byte>
    requires |key| <= BLOCK
  {
    if key == [] then [] else Padded(key)
  }

  /** BLAKE2s of a message, with an output length and an optional key */
  function Hash(outlen: u32, key: seq<byte>, data: seq<byte>): (r: seq<byte>)
    requires outlen <= 32 && |key| <= BLOCK
    ensures |r| == outlen as int
  {
    Truncated(Digest(Param(outlen, |key| as u32), KeyBlock(key) + data), outlen)
  }

  // Lemmas.

  /** One more block */
  lemma ChainStep(h: Eight, d: seq<byte>, block: seq<byte>)
    requires |d| % BLOCK == 0 && |block| == BLOCK
    ensures Chain(h, d + block) == F(Chain(h, d), block, |d| + BLOCK, false)
  {
    hide F;
    assert (d + block)[..|d|] == d && (d + block)[|d|..] == block;
  }

  lemma LastUnique(length: nat, n: nat)
    requires n % BLOCK == 0 && n <= length <= n + BLOCK && (length > 0 ==> n < length)
    ensures Last(length) == n
  {}

  lemma XorZero(a: u32)
    ensures Xor(a, 0) == a
  {
    Pow2Half();
    XorBitsZero(a as int, 32);
  }

  lemma {:induction false} XorBitsZero(a: nat, n: nat)
    requires a < Pow2(n)
    ensures XorBits(a, 0, n) == a
  {
    if n > 0 { XorBitsZero(a / 2, n - 1); }
  }

  // The code.

  /** blake2s_state.  `start` and `data` say what it stands for. */
  class State {
    const h: array<u32>
    const buf: array<byte>
    var buflen: nat
    var t0: u32
    var t1: u32
    var outlen: u32
    const neon: bool
    ghost var start: Eight
    ghost var data: seq<byte>

    /** `pos` bytes have been compressed, all before the last block; the rest is in the buffer. */
    ghost predicate At(d: seq<byte>, pos: nat)
      reads this, h
    {
      && h.Length == 8 && pos % BLOCK == 0 && pos <= |d|
      && h[..] == Chain(start, d[..pos])
      && t0 == Low(pos) && t1 == High(pos)
    }

    ghost predicate Valid()
      reads this, h, buf
    {
      && buf.Length == BLOCK && outlen <= 32
      && var pos := Last(|data|);
         At(data, pos) && buflen == |data| - pos && buf[..buflen] == data[pos..]
    }

    /** blake2s_compress, on either of its paths */
    method Compress(block: seq<byte>, last: bool)
      requires h.Length == 8 && |block| == BLOCK
      modifies h
      ensures h[..] == Compressed(old(h[..]), Load(block), t0, t1, if last then 0xFFFF_FFFF else 0, 0)
    {
      hide Compressed, Load;
      if neon {
        CompressNeon(h, block, t0, t1, if last then 0xFFFF_FFFF else 0, 0);
      } else {
        CompressScalar(h, block, t0, t1, if last then 0xFFFF_FFFF else 0, 0);
      }
    }

    /** The offset counter moves on. */
    method Count(k: u32, ghost n: nat)
      requires t0 == Low(n) && t1 == High(n) && k <= 64
      modifies this`t0, this`t1
      ensures t0 == Low(n + k as nat) && t1 == High(n + k as nat)
    {
      Carry(n, k as nat);
      hide Low, High;
      t0 := Add(t0, k);
      if t0 < k { t1 := Add(t1, 1); }
    }

    /** One block that is not the last */
    method Block(block: seq<byte>, ghost d: seq<byte>, ghost pos: nat)
      requires At(d, pos) && |block| == BLOCK && pos + BLOCK <= |d| && block == d[pos..pos + BLOCK]
      modifies this`t0, this`t1, h
      ensures At(d, pos + BLOCK)
    {
      hide Low, High, Compressed, Load, Chain;
      ChainStep(start, d[..pos], block);
      assert d[..pos] + block == d[..pos + BLOCK];
      Count(64, pos);
      Compress(block, false);
    }

    ghost predicate Shaped()
      reads this
    {
      h.Length == 8 && buf.Length == BLOCK && outlen <= 32
    }

    /** blake2s_init */
    constructor (length: u32, useNeon: bool)
      requires length <= 32
      ensures Valid() && fresh(h) && fresh(buf) && start == Param(length, 0) && data == [] && outlen == length
    {
      hide Xor;
      h := new u32[8](i requires 0 <= i < 8 => IV[i]);
      buf := new byte[BLOCK](_ => 0);
      buflen, t0, t1, outlen, neon := 0, 0, 0, length, useNeon;
      start, data := Param(length, 0), [];
      new;
      h[0] := Xor(h[0], Xor(0x0101_0000, length));
      XorZero(h[0]);
      assert h[..] == Param(length, 0);
    }

    /** blake2s_init_key, after blake2s_init */
    method Key(key: seq<byte>)
      requires Valid() && data == [] && start == Param(outlen, 0) && 0 < |key| <= BLOCK
      modifies this, h, buf
      ensures Valid() && start == Param(outlen, |key| as u32) && data == Padded(key) && outlen == old(outlen)
    {
      hide Xor, Digest;
      XorZero(Xor(IV[0], Xor(0x0101_0000, outlen)));
      h[0] := Xor(h[0], 0x100*(|key| as u32));
      start := Param(outlen, |key| as u32);
      assert h[..] == start;
      Update(Padded(key));
    }

    /** The tail of the input goes into the buffer. */
    method Keep(pin: seq<byte>, ghost d: seq<byte>, ghost pos: nat)
      requires Shaped() && At(d, pos) && buflen + |pin| <= BLOCK && pos + buflen <= |d|
      requires buf[..buflen] == d[pos..pos + buflen] && pin == d[pos + buflen..] && |pin| > 0
      modifies this`buflen, this`data, buf
      ensures Valid() && data == d
    {
      hide Low, High, Chain;
      LastUnique(|d|, pos);
      var left := buflen;
      CopyInto(buf, left, pin);
      buflen := left + |pin|;
      data := d;
      assert buf[..buflen] == d[pos..pos + left] + pin == d[pos..];
    }

    /** Full blocks straight from the input, except the last */
    method Bulk(input: seq<byte>, ghost d: seq<byte>, ghost start_: nat) returns (pin: seq<byte>, ghost pos: nat)
      requires At(d, start_) && input == d[start_..] && |input| > 0
      modifies this`t0, this`t1, h
      ensures At(d, pos) && pin == d[pos..] && 0 < |pin| <= BLOCK
    {
      hide Low, High, Chain;
      pin, pos := input, start_;
      while |pin| > BLOCK
        invariant At(d, pos) && pin == d[pos..] && 0 < |pin|
        decreases |pin|
      {
        assert pin[..BLOCK] == d[pos..pos + BLOCK];
        Block(pin[..BLOCK], d, pos);
        pin := pin[BLOCK..];
        pos := pos + BLOCK;
      }
    }

    /** The buffer is filled from the input and compressed. */
    method TopUp(input: seq<byte>, ghost d: seq<byte>, ghost pos: nat) returns (pin: seq<byte>)
      requires Shaped() && At(d, pos) && buflen <= BLOCK && buflen + |input| > BLOCK && pos + buflen <= |d|
      requires buf[..buflen] == d[pos..pos + buflen] && input == d[pos + buflen..]
      modifies this`t0, this`t1, this`buflen, h, buf
      ensures At(d, pos + BLOCK) && pin == d[pos + BLOCK..] && |pin| > 0 && buflen == 0
    {
      hide Low, High, Chain;
      var fill := BLOCK - buflen;
      CopyInto(buf, buflen, input[..fill]);
      assert buf[..] == d[pos..pos + BLOCK];
      Block(buf[..], d, pos);
      pin := input[fill..];
      buflen := 0;
    }

    /** blake2s_update */
    method Update(input: seq<byte>)
      requires Valid()
      modifies this, h, buf
      ensures Valid() && data == old(data) + input && start == old(start) && outlen == old(outlen)
    {
      hide Low, High, Chain;
      if |input| == 0 { return; }
      var pin := input;
      ghost var d, pos := data + input, Last(|data|);
      assert d[..pos] == data[..pos] && d[pos..pos + buflen] == data[pos..];
      if |pin| > BLOCK - buflen {
        if buflen > 0 {
          pin := TopUp(pin, d, pos);
          pos := pos + BLOCK;
        }
        pin, pos := Bulk(pin, d, pos);
      }
      Keep(pin, d, pos);
    }

    /** blake2s_final */
    method Final() returns (out: seq<byte>)
      requires Valid()
      modifies this`t0, this`t1, h, buf
      ensures out == Truncated(Digest(old(start), old(data)), old(outlen))
    {
      hide Low, High, Chain, Compressed, Load;
      ghost var pos := Last(|data|);
      Count(buflen as u32, pos);
      CopyInto(buf, buflen, seq(BLOCK - buflen, _ => 0));
      assert buf[..] == Padded(data[pos..]);
      Compress(buf[..], true);
      out := Output();
    }

    method Output() returns (out: seq<byte>)
      requires Shaped()
      ensures out == Truncated(h[..], outlen)
    {
      out := [];
      var i := 0;
      while i < outlen as int
        invariant i <= outlen as int && out == Store32All(h[..])[..i]
      {
        StoredByte(h[..], i);
        out := out + [ByteOf(h[i / 4], i % 4)];
        i := i + 1;
      }
    }
  }

  /** (w >> 8*k) & 0xFF */
  function ByteOf(w: u32, k: nat): byte
    requires k < 4
  {
    if k == 0 then (w % 0x100) as byte
    else if k == 1 then (w / 0x100 % 0x100) as byte
    else if k == 2 then (w / 0x1_0000 % 0x100) as byte
    else (w / 0x100_0000) as byte
  }

  lemma {:induction false} StoredByte(ws: seq<u32>, i: nat)
    requires i < 4*|ws|
    ensures Store32All(ws)[i] == ByteOf(ws[i / 4], i % 4)
  {
    if i < 4 {
      StoredWord(ws[0]);
    } else {
      StoredByte(ws[1..], i - 4);
      assert (i - 4) / 4 == i / 4 - 1 && (i - 4) % 4 == i % 4;
    }
  }

  lemma StoredWord(w: u32)
    ensures Store32(w) == [ByteOf(w, 0), ByteOf(w, 1), ByteOf(w, 2), ByteOf(w, 3)]
  {}

  /** blake2s */
  method Blake2s(outlen: u32, input: seq<byte>, key: seq<byte>, neon: bool) returns (out: seq<byte>)
    requires outlen <= 32 && |key| <= BLOCK
    ensures out == Hash(outlen, key, input)
  {
    hide Digest, Param, Padded, Truncated, State.Valid;
    var s := new State(outlen, neon);
    if |key| > 0 { s.Key(key); }
    assert s.data == KeyBlock(key) && s.start == Param(outlen, |key| as u32);
    s.Update(input);
    out := s.Final();
  }

  function Joined(chunks: seq<seq<byte>>): seq<byte> {
    if chunks == [] then [] else Joined(chunks[..|chunks| - 1]) + chunks[|chunks| - 1]
  }

  /** Any split of a message into updates gives the hash of the whole message. */
  method HashChunks(outlen: u32, chunks: seq<seq<byte>>, key: seq<byte>, neon: bool) returns (out: seq<byte>)
    requires outlen <= 32 && |key| <= BLOCK
    ensures out == Hash(outlen, key, Joined(chunks))
  {
    hide Digest, Param, Padded, Truncated, State.Valid;
    var s := new State(outlen, neon);
    if |key| > 0 { s.Key(key); }
    assert s.data == KeyBlock(key) && s.start == Param(outlen, |key| as u32);
    for i := 0 to |chunks|
      invariant s.Valid() && s.start == Param(outlen, |key| as u32) && s.outlen == outlen
      invariant s.data == KeyBlock(key) + Joined(chunks[..i]) && fresh(s) && fresh(s.h) && fresh(s.buf)
    {
      assert chunks[..i + 1][..i] == chunks[..i];
      s.Update(chunks[i]);
    }
    assert chunks[..|chunks|] == chunks;
    out := s.Final();
  }
}
