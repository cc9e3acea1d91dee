/**
 The hashing constructions in the words of their standards: the parameter word and the
 keyed case of RFC 7693, HMAC of RFC 2104 and HKDF of RFC 5869.
 */
module HashLaws {
  import opened MachineInts
  import opened Bits
  import opened Words
  import opened Bytes
  import opened Blake2sCompress
  import opened Blake2s
  import opened Hashes
  import opened Mixing

  // Section 2.5 of RFC 7693: the parameter word.

  /** The first word of the initial state differs from the constant by 0x0101kknn. */
  lemma ParamWord(outlen: u32, keylen: u32)
    requires outlen <= 32 && keylen <= 64
    ensures Xor(Param(outlen, keylen)[0], IV[0]) == 0x0101_0000 + 0x100*keylen + outlen
    ensures Param(outlen, keylen)[1..] == IV[1..]
  {
    hide Xor;
    var low := Xor(0x0101_0000, outlen);
    var word := Xor(low, 0x100*keylen);
    XorOrder(IV[0], low, 0x100*keylen);
    XorBack(word, IV[0]);
    LengthWord(outlen);
    KeyWord(outlen, keylen);
  }

  lemma LengthWord(outlen: u32)
    requires outlen <= 32
    ensures Xor(0x0101_0000, outlen) == 0x0101_0000 + outlen
  {
    var n := outlen as int;
    Pow2Byte();
    Pow2Thirds();
    hide XorBits, Pow2, Shl;
    ShlByte(0x1_0100);
    ShlByte(0);
    XorSplit(0, 0x1_0100, n, 0, 8, 24);
    XorBitsCommute(0, n, 8);
    XorBitsZero(n, 8);
    XorBitsZero(0x1_0100, 24);
  }

  lemma Pow2Thirds()
    ensures Pow2(24) == 0x100_0000
  {
    hide Pow2;
    Pow2Byte();
    Pow2Half();
    Pow2Sum(16, 8);
  }

  lemma KeyWord(outlen: u32, keylen: u32)
    requires outlen <= 32 && keylen <= 64
    ensures Xor(0x0101_0000 + outlen, 0x100*keylen) == 0x0101_0000 + 0x100*keylen + outlen
  {
    var n, k := outlen as int, keylen as int;
    Pow2Byte();
    Pow2Half();
    hide XorBits, Pow2, Shl;
    ShlByte(0x101);
    ShlByte(0);
    XorSplit(0, 0x101, k, 0, 8, 16);
    XorBitsCommute(0, k, 8);
    XorBitsZero(k, 8);
    XorBitsZero(0x101, 16);
    ShlByte(0x1_0100);
    ShlByte(k);
    ShlByte(0x1_0100 + k);
    XorSplit(n, 0x1_0100, 0, k, 8, 24);
    XorBitsZero(n, 8);
  }

  // Section 3.3: a key is a block of its own, compressed first and counted.

  lemma KeyedEmpty(outlen: u32, key: seq<byte>)
    requires outlen <= 32 && 0 < |key| <= BLOCK
    ensures Hash(outlen, key, []) == Truncated(F(Param(outlen, |key| as u32), Padded(key), 64, true), outlen)
  {
    hide F, Param, Truncated;
    var d := KeyBlock(key) + [];
    assert d == Padded(key);
    LastUnique(64, 0);
    assert d[..0] == [] && d[0..] == d && Padded(d) == d;
  }

  lemma KeyedBlock(outlen: u32, key: seq<byte>, data: seq<byte>)
    requires outlen <= 32 && 0 < |key| <= BLOCK && 0 < |data| <= BLOCK
    ensures Hash(outlen, key, data)
      == Truncated(F(F(Param(outlen, |key| as u32), Padded(key), 64, false), Padded(data), 64 + |data|, true), outlen)
  {
    hide F, Param, Truncated;
    var k := Padded(key);
    var d := k + data;
    assert KeyBlock(key) + data == d;
    LastUnique(|d|, 64);
    assert d[..64] == k && d[64..] == data;
    ChainStep(Param(outlen, |key| as u32), [], k);
    assert [] + k == k;
  }

  // RFC 2104.

  /** Byte by byte, with a constant byte */
  function Each(s: seq<byte>, b: byte): seq<byte> {
    seq(|s|, i requires 0 <= i < |s| => XorByte(s[i], b))
  }

  /** H(K ^ opad, H(K ^ ipad, text)), where K is the key extended by zeros to a block */
  lemma HmacIs(key: seq<byte>, text: seq<byte>)
    requires |key| <= BLOCK
    ensures var K := Padded(key);
      Hmac(32, key, text) == Hash(32, [], Each(K, 0x5c) + Hash(32, [], Each(K, 0x36) + text))
  {
    hide Hash, XorByte;
    PadIs(key, 0x5c);
    PadIs(key, 0x36);
  }

  lemma PadIs(key: seq<byte>, b: byte)
    requires |key| <= BLOCK
    ensures Pad(key, b) == Each(Padded(key), b)
  {
    hide XorByte;
    forall i | 0 <= i < BLOCK
      ensures Pad(key, b)[i] == Each(Padded(key), b)[i]
    {
      if i < |key| { ByteCommutes(key[i], b); } else { ByteCommutes(0, b); ByteZero(b); }
    }
  }

  lemma ByteCommutes(a: byte, b: byte)
    ensures XorByte(a, b) == XorByte(b, a)
  {
    XorBitsCommute(a as int, b as int, 8);
  }

  lemma ByteZero(b: byte)
    ensures XorByte(b, 0) == b
  {
    Pow2Byte();
    XorBitsZero(b as int, 8);
  }

  // RFC 5869, without info.

  predicate IsHmac(out: seq<byte>, key: seq<byte>, data: seq<byte>) {
    |key| <= BLOCK && out == Hmac(32, key, data)
  }

  /** T(1) = HMAC(PRK, 1), with PRK extracted from salt and input */
  lemma KdfFirst(salt: seq<byte>, input: seq<byte>, prk: seq<byte>, t: seq<byte>, n: nat)
    requires IsHmac(prk, salt, input) && IsKdf(t, salt, input, n) && n == 1
    ensures IsHmac(t, prk, [1])
  {
    hide Hmac, Expand;
    ExpandFirst(prk);
  }

  /** T(n + 1) = HMAC(PRK, T(n) | n + 1) */
  lemma KdfNext(salt: seq<byte>, input: seq<byte>, prk: seq<byte>, t: seq<byte>, next: seq<byte>, n: nat, m: byte)
    requires IsHmac(prk, salt, input) && IsKdf(t, salt, input, n) && IsKdf(next, salt, input, m as int)
    requires m as int == n + 1
    ensures IsHmac(next, prk, t + [m])
  {
    hide Hmac, Expand;
    ExpandNext(prk, n);
  }
}
