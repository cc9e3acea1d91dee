/**
 AEAD_CHACHA20_POLY1305 (section 2.8 of RFC 8439) as WireGuard uses it: the NEON
 path, Monocypher's path, and the dispatch between them in src/wg_crypto.c.
 */
module Aead {
  import opened MachineInts
  import opened Words
  import opened Bytes
  import opened ChaChaStream
  import opened Poly1305Spec
  import Poly1305Neon
  import Poly1305Mono
  import Verify16

  const TAG: nat := 16
  /** The longest plaintext of the RFC: the 32-bit block counter starts at one. */
  const MAX_TEXT: nat := 64*(0x1_0000_0000 - 1)

  /** store64_le */
  function Store64(n: nat): (s: seq<byte>)
    requires n < TWO_64
    ensures |s| == 8
  {
    Store32(Low(n)) + Store32(High(n))
  }

  /** build_nonce: four zero bytes, then the counter */
  function Nonce(counter: u64): (s: seq<byte>)
    ensures |s| == 12
  {
    Zeros(4) + Store64(counter as int)
  }

  /** What makes the length a multiple of sixteen */
  function Gap(n: nat): nat { (16 - n % 16) % 16 }

  /** What is authenticated */
  function MacData(ad: seq<byte>, text: seq<byte>): seq<byte>
    requires |ad| < TWO_64 && |text| < TWO_64
  {
    ad + Zeros(Gap(|ad|)) + text + Zeros(Gap(|text|)) + (Store64(|ad|) + Store64(|text|))
  }

  /** The one-time key: the first half of block zero */
  function PolyKey(key: seq<byte>, nonce: seq<byte>): (k: seq<byte>)
    requires |key| == 32 && |nonce| == 12
    ensures |k| == 32
  {
    Stream(key, nonce[4..], Counter(nonce, 0))[..32]
  }

  /** The tag belongs to this ciphertext and associated data. */
  ghost predicate Authentic(key: seq<byte>, nonce: seq<byte>, ad: seq<byte>, text: seq<byte>, tag: seq<byte>) {
    && |key| == 32 && |nonce| == 12 && |ad| < TWO_64 && |text| < TWO_64
    && IsTag(PolyKey(key, nonce), MacData(ad, text), tag)
  }

  /**
   The text under the stream: with the RFC's 32-bit block counter, which wraps, or,
   when `wide`, with the 64-bit one of Monocypher
   */
  function Crypted(wide: bool, s: seq<byte>, key: seq<byte>, nonce: seq<byte>): (r: seq<byte>)
    requires |key| == 32 && |nonce| == 12
    ensures |r| == |s|
  {
    if wide then XorFrom(s, key, nonce[4..], Counter(nonce, 1)) else XorStream(s, key, nonce, 1)
  }

  /** The sealed form of a plaintext: ciphertext and tag */
  ghost predicate IsSealed(wide: bool, key: seq<byte>, nonce: seq<byte>, ad: seq<byte>, plain: seq<byte>,
          out: seq<byte>) {
    && |key| == 32 && |nonce| == 12 && |out| == |plain| + TAG
    && out[..|plain|] == Crypted(wide, plain, key, nonce)
    && Authentic(key, nonce, ad, out[..|plain|], out[|plain|..])
  }

  // Theorems.

  lemma CryptedTwice(wide: bool, s: seq<byte>, key: seq<byte>, nonce: seq<byte>)
    requires |key| == 32 && |nonce| == 12
    ensures Crypted(wide, Crypted(wide, s, key, nonce), key, nonce) == s
  {
    hide XorStream, XorFrom;
    if wide { XorFromTwice(s, key, nonce[4..], Counter(nonce, 1)); } else { XorStreamTwice(s, key, nonce, 1); }
  }

  /** Up to the RFC's limit the two counters make no difference. */
  lemma SameCrypted(s: seq<byte>, key: seq<byte>, nonce: seq<byte>)
    requires |key| == 32 && |nonce| == 12 && |s| <= MAX_TEXT
    ensures Crypted(true, s, key, nonce) == Crypted(false, s, key, nonce)
  {
    SameStream(s, key, nonce, 1);
  }

  /** Sealing is a function of its inputs. */
  lemma SealedUnique(wide: bool, key: seq<byte>, nonce: seq<byte>, ad: seq<byte>, plain: seq<byte>, a: seq<byte>,
          b: seq<byte>)
    requires IsSealed(wide, key, nonce, ad, plain, a) && IsSealed(wide, key, nonce, ad, plain, b)
    ensures a == b
  {
    hide Crypted, PolyKey, MacData, IsTag;
    var n := |plain|;
    TagUnique(PolyKey(key, nonce), MacData(ad, a[..n]), a[n..], b[n..]);
    assert a == a[..n] + a[n..] && b == b[..n] + b[n..];
  }

  /** Opening undoes sealing. */
  lemma OpensSealed(wide: bool, key: seq<byte>, nonce: seq<byte>, ad: seq<byte>, plain: seq<byte>, out: seq<byte>)
    requires IsSealed(wide, key, nonce, ad, plain, out)
    ensures Authentic(key, nonce, ad, out[..|plain|], out[|plain|..])
    ensures Crypted(wide, out[..|plain|], key, nonce) == plain
  {
    hide Authentic, Crypted;
    CryptedTwice(wide, plain, key, nonce);
  }

  /** What opens is exactly what sealing makes: of the plaintext that opening returns, and of no other. */
  lemma OpensOnlySealed(wide: bool, key: seq<byte>, nonce: seq<byte>, ad: seq<byte>, out: seq<byte>, plain: seq<byte>)
    requires |key| == 32 && |nonce| == 12 && |out| == |plain| + TAG
    ensures IsSealed(wide, key, nonce, ad, plain, out) <==>
      && Authentic(key, nonce, ad, out[..|plain|], out[|plain|..])
      && plain == Crypted(wide, out[..|plain|], key, nonce)
  {
    hide Authentic, Crypted;
    CryptedTwice(wide, plain, key, nonce);
    CryptedTwice(wide, out[..|plain|], key, nonce);
  }

  // The NEON path.

  method MacNeon(k: seq<byte>, ad: seq<byte>, text: seq<byte>) returns (tag: seq<byte>)
    requires |k| == 32 && |ad| < TWO_64 && |text| < TWO_64
    ensures IsTag(k, MacData(ad, text), tag)
  {
    hide IsTag, Poly1305Neon.Poly1305.Valid, Zeros, Store64;
    var ctx := new Poly1305Neon.Poly1305(k);
    if |ad| > 0 {
      ctx.Update(ad);
      if Gap(|ad|) > 0 { ctx.Update(Zeros(Gap(|ad|))); }
    }
    assert ctx.msg == ad + Zeros(Gap(|ad|)) by { NoZeros(); }
    ctx.Update(text);
    if Gap(|text|) > 0 { ctx.Update(Zeros(Gap(|text|))); }
    assert ctx.msg == ad + Zeros(Gap(|ad|)) + text + Zeros(Gap(|text|)) by { NoZeros(); }
    ctx.Update(Store64(|ad|) + Store64(|text|));
    tag := ctx.Final();
  }

  lemma NoZeros()
    ensures Zeros(0) == []
  {}

  /** wg_aead_neon_encrypt; the plaintext may be in the output buffer */
  method EncryptNeon(out: array<byte>, key: seq<byte>, counter: u64, plain: array<byte>, len: nat, ad: seq<byte>)
    requires |key| == 32 && |ad| < TWO_64 && len < TWO_64 && len + TAG <= out.Length && len <= plain.Length
    modifies out
    ensures IsSealed(false, key, Nonce(counter), ad, old(plain[..len]), out[..len + TAG])
    ensures out[len + TAG..] == old(out[len + TAG..])
  {
    hide XorStream, LE, TagValue, MacData, Stream, Counter, Nonce;
    var nonce := Nonce(counter);
    var block := StreamNeon(key, nonce, 0);
    XorNeon(out, 0, plain, 0, len, key, nonce, 1);
    var text := out[..len];
    var tag := MacNeon(block[..32], ad, text);
    CopyInto(out, len, tag);
    Joined(out[..], text, tag, old(out[len..]));
  }

  lemma Joined(out: seq<byte>, text: seq<byte>, tag: seq<byte>, rest: seq<byte>)
    requires |tag| == TAG <= |rest| && out == text + tag + rest[TAG..]
    ensures out[..|text| + TAG][..|text|] == text && out[..|text| + TAG][|text|..] == tag
    ensures out[|text| + TAG..] == rest[TAG..]
  {}

  /** wg_aead_neon_decrypt: zero exactly for an authentic ciphertext; otherwise the output stays as it was */
  method DecryptNeon(out: array<byte>, key: seq<byte>, counter: u64, cipher: array<byte>, clen: nat, ad: seq<byte>)
    returns (result: i32)
    requires |key| == 32 && |ad| < TWO_64 && clen < TWO_64 && clen <= cipher.Length && clen <= out.Length + TAG
    modifies out
    ensures result == if Opens(key, Nonce(counter), ad, old(cipher[..clen])) then 0 else -1
    ensures result == 0 ==>
      out[..] == Crypted(false, old(cipher[..clen - TAG]), key, Nonce(counter)) + old(out[clen - TAG..])
    ensures result != 0 ==> out[..] == old(out[..])
  {
    hide XorStream, LE, TagValue, MacData, Stream, Counter, Nonce;
    if clen < TAG { return -1; }
    var n := clen - TAG;
    var nonce := Nonce(counter);
    var block := StreamNeon(key, nonce, 0);
    var text, mac := cipher[..n], cipher[n..clen];
    assert cipher[..clen][..n] == text && cipher[..clen][n..] == mac;
    var computed := MacNeon(block[..32], ad, text);
    TagDecides(key, nonce, ad, text, mac, computed);
    result := Verify16.Verify(computed, mac);
    if result == 0 {
      XorNeon(out, 0, cipher, 0, n, key, nonce, 1);
      assert out[..] == out[..n] + out[n..];
    }
  }

  /** A ciphertext with its tag, as decryption accepts it */
  ghost predicate Opens(key: seq<byte>, nonce: seq<byte>, ad: seq<byte>, cipher: seq<byte>) {
    |cipher| >= TAG && Authentic(key, nonce, ad, cipher[..|cipher| - TAG], cipher[|cipher| - TAG..])
  }

  lemma TagDecides(key: seq<byte>, nonce: seq<byte>, ad: seq<byte>, text: seq<byte>, mac: seq<byte>,
          computed: seq<byte>)
    requires Authentic(key, nonce, ad, text, computed) && |mac| == TAG
    ensures computed == mac <==> Authentic(key, nonce, ad, text, mac)
  {
    hide PolyKey, MacData, TagValue, LE;
    var k, msg := PolyKey(key, nonce), MacData(ad, text);
    if IsTag(k, msg, mac) { TagUnique(k, msg, computed, mac); }
  }

  // Monocypher's path.

  /** lock_auth */
  method LockAuth(k: seq<byte>, ad: seq<byte>, text: seq<byte>) returns (tag: seq<byte>)
    requires |k| == 32 && |ad| < TWO_64 && |text| < TWO_64
    ensures IsTag(k, MacData(ad, text), tag)
  {
    hide IsTag, Poly1305Mono.Poly1305.Valid, Zeros, Store64;
    var ctx := new Poly1305Mono.Poly1305(k);
    ctx.Update(ad);
    ctx.Update(Zeros(Gap(|ad|)));
    ctx.Update(text);
    ctx.Update(Zeros(Gap(|text|)));
    assert ctx.msg == ad + Zeros(Gap(|ad|)) + text + Zeros(Gap(|text|));
    ctx.Update(Store64(|ad|) + Store64(|text|));
    tag := ctx.Final();
  }

  /** The 64-bit block counter of crypto_aead_init_ietf */
  method BlockCounter(nonce: seq<byte>) returns (counter: u64)
    requires |nonce| == 12 && Load32(nonce, 0) == 0
    ensures counter as int == Counter(nonce, 0) == 0 && Counter(nonce, 1) == 1
  {
    hide Load32;
    counter := 0x1_0000_0000*(Load32(nonce, 0) as u64);
  }

  lemma NonceStart(counter: u64)
    ensures Load32(Nonce(counter), 0) == 0
  {}

  /** The other branch of wg_aead_encrypt: crypto_aead_init_ietf and crypto_aead_write */
  method EncryptMono(out: array<byte>, key: seq<byte>, counter: u64, plain: array<byte>, len: nat, ad: seq<byte>)
    requires |key| == 32 && |ad| < TWO_64 && len < TWO_64 && len + TAG <= out.Length && len <= plain.Length
    modifies out
    ensures IsSealed(true, key, Nonce(counter), ad, old(plain[..len]), out[..len + TAG])
    ensures out[len + TAG..] == old(out[len + TAG..])
  {
    hide XorFrom, LE, TagValue, MacData, Stream, Counter, Nonce, Load32;
    var nonce := Nonce(counter);
    NonceStart(counter);
    var start := BlockCounter(nonce);
    var block := StreamDjb(key, nonce[4..], start);
    var next := XorDjb(out, 0, plain, 0, len, key, nonce[4..], start + 1, plain[..len]);
    var text := out[..len];
    var tag := LockAuth(block[..32], ad, text);
    CopyInto(out, len, tag);
    Joined(out[..], text, tag, old(out[len..]));
  }

  /** The other branch of wg_aead_decrypt: crypto_aead_init_ietf and crypto_aead_read */
  method DecryptMono(out: array<byte>, key: seq<byte>, counter: u64, cipher: array<byte>, clen: nat, ad: seq<byte>)
    returns (result: i32)
    requires |key| == 32 && |ad| < TWO_64 && clen < TWO_64 && clen <= cipher.Length && clen <= out.Length + TAG
    modifies out
    ensures result == if Opens(key, Nonce(counter), ad, old(cipher[..clen])) then 0 else -1
    ensures result == 0 ==>
      out[..] == Crypted(true, old(cipher[..clen - TAG]), key, Nonce(counter)) + old(out[clen - TAG..])
    ensures result != 0 ==> out[..] == old(out[..])
  {
    hide XorFrom, LE, TagValue, MacData, Stream, Counter, Nonce, Load32;
    if clen < TAG { return -1; }
    var n := clen - TAG;
    var nonce := Nonce(counter);
    NonceStart(counter);
    var start := BlockCounter(nonce);
    var block := StreamDjb(key, nonce[4..], start);
    var text, mac := cipher[..n], cipher[n..clen];
    assert cipher[..clen][..n] == text && cipher[..clen][n..] == mac;
    var computed := LockAuth(block[..32], ad, text);
    TagDecides(key, nonce, ad, text, mac, computed);
    result := Verify16.Verify(mac, computed);
    if result == 0 {
      var next := XorDjb(out, 0, cipher, 0, n, key, nonce[4..], start + 1, text);
      assert out[..] == out[..n] + out[n..];
    }
  }

  // The dispatch.

  /** wg_aead_encrypt */
  method Encrypt(out: array<byte>, key: seq<byte>, counter: u64, plain: array<byte>, len: nat, ad: seq<byte>,
          neon: bool)
    requires |key| == 32 && |ad| < TWO_64 && len < TWO_64 && len + TAG <= out.Length && len <= plain.Length
    modifies out
    ensures IsSealed(!neon, key, Nonce(counter), ad, old(plain[..len]), out[..len + TAG])
    ensures out[len + TAG..] == old(out[len + TAG..])
  {
    hide IsSealed, Nonce;
    if neon {
      EncryptNeon(out, key, counter, plain, len, ad);
    } else {
      EncryptMono(out, key, counter, plain, len, ad);
    }
  }

  /** wg_aead_decrypt */
  method Decrypt(out: array<byte>, key: seq<byte>, counter: u64, cipher: array<byte>, clen: nat, ad: seq<byte>,
          neon: bool)
    returns (result: i32)
    requires |key| == 32 && |ad| < TWO_64 && clen < TWO_64 && clen <= cipher.Length && clen <= out.Length + TAG
    modifies out
    ensures result == if Opens(key, Nonce(counter), ad, old(cipher[..clen])) then 0 else -1
    ensures result == 0 ==>
      out[..] == Crypted(!neon, old(cipher[..clen - TAG]), key, Nonce(counter)) + old(out[clen - TAG..])
    ensures result != 0 ==> out[..] == old(out[..])
  {
    hide Authentic, Nonce, Crypted;
    if neon {
      result := DecryptNeon(out, key, counter, cipher, clen, ad);
    } else {
      result := DecryptMono(out, key, counter, cipher, clen, ad);
    }
  }

  /**
   In one buffer: what was sealed opens to the same plaintext, when both ends take
   the same path, and whichever they take up to the RFC's limit.
   */
  method SealThenOpen(buf: array<byte>, len: nat, key: seq<byte>, counter: u64, ad: seq<byte>, sealNeon: bool,
          openNeon: bool)
    returns (result: i32)
    requires |key| == 32 && |ad| < TWO_64 && len + TAG < TWO_64 && len + TAG <= buf.Length
    modifies buf
    ensures result == 0
    ensures sealNeon == openNeon || len <= MAX_TEXT ==> buf[..len] == old(buf[..len])
  {
    hide Authentic, Nonce, Crypted;
    ghost var plain := buf[..len];
    Encrypt(buf, key, counter, buf, len, ad, sealNeon);
    ghost var cipher := buf[..len + TAG];
    OpensSealed(!sealNeon, key, Nonce(counter), ad, plain, cipher);
    assert buf[..len] == cipher[..len];
    if len <= MAX_TEXT { SameCrypted(cipher[..len], key, Nonce(counter)); }
    result := Decrypt(buf, key, counter, buf, len + TAG, ad, openNeon);
  }

  /** Up to the RFC's limit the NEON path and Monocypher's write the same bytes. */
  method BothPaths(plain: array<byte>, len: nat, key: seq<byte>, counter: u64, ad: seq<byte>)
    returns (fast: seq<byte>, reference: seq<byte>)
    requires |key| == 32 && |ad| < TWO_64 && len <= MAX_TEXT && len <= plain.Length
    ensures fast == reference && IsSealed(false, key, Nonce(counter), ad, plain[..len], fast)
  {
    hide Authentic, Crypted, Nonce;
    var a, b := new byte[len + TAG], new byte[len + TAG];
    EncryptNeon(a, key, counter, plain, len, ad);
    EncryptMono(b, key, counter, plain, len, ad);
    fast, reference := a[..len + TAG], b[..len + TAG];
    SameCrypted(plain[..len], key, Nonce(counter));
    SealedUnique(false, key, Nonce(counter), ad, plain[..len], fast, reference);
  }
}
