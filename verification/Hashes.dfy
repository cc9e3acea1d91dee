/**
 The keyed constructions of src/wg_crypto.c over BLAKE2s: HMAC of RFC 2104 and
 the key derivation of RFC 5869, with output buffers that may be the key buffer.
 */
module Hashes {
  import opened MachineInts
  import opened Words
  import opened Blake2s

  const HASH_LEN: nat := 32

  /** The key, zero-extended, xored with a pad byte */
  function Pad(key: seq<byte>, b: byte): (r: seq<byte>)
    requires |key| <= BLOCK
    ensures |r| == BLOCK
  {
    seq(BLOCK, i requires 0 <= i < BLOCK => if i < |key| then XorByte(b, key[i]) else b)
  }

  /** BLAKE2s without a key */
  function Unkeyed(outlen: u32, data: seq<byte>): (r: seq<byte>)
    requires outlen <= 32
    ensures |r| == outlen as int
  {
    Hash(outlen, [], data)
  }

  function Inner(key: seq<byte>, data: seq<byte>): seq<byte>
    requires |key| <= BLOCK
  {
    Unkeyed(32, Pad(key, 0x36) + data)
  }

  /** HMAC, for keys of at most one block */
  function Hmac(outlen: u32, key: seq<byte>, data: seq<byte>): (r: seq<byte>)
    requires outlen <= 32 && |key| <= BLOCK
    ensures |r| == outlen as int
  {
    Unkeyed(outlen, Pad(key, 0x5c) + Inner(key, data))
  }

  /** The n-th output of HKDF's expansion without info, from an extracted key */
  function Expand(prk: seq<byte>, n: nat): (r: seq<byte>)
    requires |prk| == HASH_LEN && 0 < n < 0x100
    ensures |r| == HASH_LEN
  {
    Hmac(32, prk, (if n == 1 then [] else Expand(prk, n - 1)) + [n as byte])
  }

  /** The n-th output of the KDF */
  function Kdf(key: seq<byte>, input: seq<byte>, n: nat): (r: seq<byte>)
    requires |key| == HASH_LEN && 0 < n < 0x100
    ensures |r| == HASH_LEN
  {
    Expand(Hmac(32, key, input), n)
  }

  predicate IsKdf(out: seq<byte>, key: seq<byte>, input: seq<byte>, n: nat) {
    |key| == HASH_LEN && 0 < n < 0x100 && out == Kdf(key, input, n)
  }

  lemma ExpandFirst(prk: seq<byte>)
    requires |prk| == HASH_LEN
    ensures Expand(prk, 1) == Hmac(32, prk, [1])
  {
    hide Hmac;
    assert [] + [1 as byte] == [1];
  }

  lemma ExpandNext(prk: seq<byte>, n: nat)
    requires |prk| == HASH_LEN && 0 < n < 0xFF
    ensures Expand(prk, n + 1) == Hmac(32, prk, Expand(prk, n) + [(n + 1) as byte])
  {
    hide Hmac;
  }

  /** wg_hash2: the hash of the concatenation */
  method Hash2(a: seq<byte>, b: seq<byte>, neon: bool) returns (out: seq<byte>)
    ensures out == Unkeyed(32, a + b)
  {
    hide Hash;
    out := HashChunks(32, [a, b], [], neon);
    TwoChunks(a, b);
  }

  lemma TwoChunks(a: seq<byte>, b: seq<byte>)
    ensures Joined([a, b]) == a + b
  {
    var c := [a, b];
    assert c[..1] == [a] && c[..1][..0] == [];
    assert Joined(c[..1]) == Joined(c[..1][..0]) + a == a;
  }

  /** wg_mix_hash: the hash buffer is input and output */
  method MixHash(hash: array<byte>, data: seq<byte>, neon: bool)
    requires hash.Length == HASH_LEN
    modifies hash
    ensures hash[..] == Unkeyed(32, old(hash[..]) + data)
  {
    hide Hash;
    var out := Hash2(hash[..], data, neon);
    Store(hash, out);
  }

  method Store(buf: array<byte>, s: seq<byte>)
    requires buf.Length == |s|
    modifies buf
    ensures buf[..] == s
  {
    for i := 0 to |s|
      invariant forall k | 0 <= k < i :: buf[k] == s[k]
    {
      buf[i] := s[i];
    }
  }

  /** wg_hmac: what it takes of the key is its first block */
  method HmacCode(outlen: u32, key: seq<byte>, data: seq<byte>, neon: bool) returns (out: seq<byte>)
    requires outlen <= 32
    ensures out == Hmac(outlen, if |key| <= BLOCK then key else key[..BLOCK], data)
  {
    hide Hash, XorByte;
    var ipad, opad := new byte[BLOCK](_ => 0x36), new byte[BLOCK](_ => 0x5c);
    var i := 0;
    while i < |key| && i < BLOCK
      invariant i <= |key| && i <= BLOCK
      invariant forall k | 0 <= k < i :: ipad[k] == XorByte(0x36, key[k]) && opad[k] == XorByte(0x5c, key[k])
      invariant forall k | i <= k < BLOCK :: ipad[k] == 0x36 && opad[k] == 0x5c
    {
      ipad[i] := XorByte(ipad[i], key[i]);
      opad[i] := XorByte(opad[i], key[i]);
      i := i + 1;
    }
    ghost var used := if |key| <= BLOCK then key else key[..BLOCK];
    assert ipad[..] == Pad(used, 0x36) && opad[..] == Pad(used, 0x5c);
    var inner := Hash2(ipad[..], data, neon);
    out := HashTwo(outlen, opad[..], inner, neon);
  }

  method HashTwo(outlen: u32, a: seq<byte>, b: seq<byte>, neon: bool) returns (out: seq<byte>)
    requires outlen <= 32
    ensures out == Unkeyed(outlen, a + b)
  {
    hide Hash;
    TwoChunks(a, b);
    out := HashChunks(outlen, [a, b], [], neon);
  }

  /** wg_kdf1; the output may be the key's buffer */
  method Kdf1(out: array<byte>, key: array<byte>, input: seq<byte>, neon: bool)
    requires out.Length == HASH_LEN && key.Length == HASH_LEN
    modifies out
    ensures IsKdf(out[..], old(key[..]), input, 1)
  {
    hide Hmac, Expand;
    var prk := HmacCode(32, key[..], input, neon);
    var t := HmacCode(32, prk, [1], neon);
    ExpandFirst(prk);
    Store(out, t);
  }

  /** wg_kdf2; an output may be the key's buffer, and if both are one buffer it ends with the second */
  method Kdf2(out1: array<byte>, out2: array<byte>, key: array<byte>, input: seq<byte>, neon: bool)
    requires out1.Length == out2.Length == key.Length == HASH_LEN
    modifies out1, out2
    ensures IsKdf(out2[..], old(key[..]), input, 2)
    ensures out1 != out2 ==> IsKdf(out1[..], old(key[..]), input, 1)
  {
    hide Hmac, Expand;
    var prk := HmacCode(32, key[..], input, neon);
    var t := HmacCode(32, prk, [1], neon);
    ExpandFirst(prk);
    Store(out1, t);
    ExpandNext(prk, 1);
    t := HmacCode(32, prk, out1[..] + [2], neon);
    Store(out2, t);
  }

  /** wg_kdf3; each output is intact unless a later one shares its buffer */
  method Kdf3(out: seq<array<byte>>, key: array<byte>, input: seq<byte>, neon: bool)
    requires |out| == 3 && key.Length == HASH_LEN && forall i | 0 <= i < 3 :: out[i].Length == HASH_LEN
    modifies out
    ensures forall i | 0 <= i < 3 && (forall j | i < j < 3 :: out[i] != out[j]) ::
      IsKdf(out[i][..], old(key[..]), input, i + 1)
  {
    hide Hmac, Expand;
    var prk := HmacCode(32, key[..], input, neon);
    var t := HmacCode(32, prk, [1], neon);
    ExpandFirst(prk);
    Store(out[0], t);
    ExpandNext(prk, 1);
    t := HmacCode(32, prk, out[0][..] + [2], neon);
    Store(out[1], t);
    ExpandNext(prk, 2);
    t := HmacCode(32, prk, out[1][..] + [3], neon);
    Store(out[2], t);
  }
}
