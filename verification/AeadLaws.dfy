/**
 Laws of the sealed form: one key stream from block zero on, what the nonce and the
 authenticated string hold, and the authenticator as a polynomial.
 */
module AeadLaws {
  import opened MachineInts
  import opened Bits
  import opened Words
  import opened Bytes
  import opened Modular
  import opened ChaChaStream
  import opened Poly1305Spec
  import opened Aead
  import Ladder

  /** The key stream from block zero on, xored onto s */
  function Whole(wide: bool, s: seq<byte>, key: seq<byte>, nonce: seq<byte>): (r: seq<byte>)
    requires |key| == 32 && |nonce| == 12
    ensures |r| == |s|
  {
    if wide then XorFrom(s, key, nonce[4..], Counter(nonce, 0)) else XorStream(s, key, nonce, 0)
  }

  /**
   The one-time key is the first half of block zero and the text starts at block one: no byte of
   the stream is used twice, and none after the one-time key's block is left out.
   */
  lemma OneStream(wide: bool, plain: seq<byte>, key: seq<byte>, nonce: seq<byte>)
    requires |key| == 32 && |nonce| == 12
    ensures var full := Whole(wide, Zeros(64) + plain, key, nonce);
      full[..32] == PolyKey(key, nonce) && full[64..] == Crypted(wide, plain, key, nonce)
  {
    hide Whole, PolyKey, Crypted;
    forall i | 0 <= i < 32
      ensures Whole(wide, Zeros(64) + plain, key, nonce)[i] == PolyKey(key, nonce)[i]
    {
      KeyByte(wide, plain, key, nonce, i);
    }
    forall i | 0 <= i < |plain|
      ensures Whole(wide, Zeros(64) + plain, key, nonce)[64 + i] == Crypted(wide, plain, key, nonce)[i]
    {
      TextByte(wide, plain, key, nonce, i);
    }
  }

  lemma KeyByte(wide: bool, plain: seq<byte>, key: seq<byte>, nonce: seq<byte>, i: nat)
    requires |key| == 32 && |nonce| == 12 && i < 32
    ensures Whole(wide, Zeros(64) + plain, key, nonce)[i] == PolyKey(key, nonce)[i]
  {
    hide Stream, XorByte, Load32, Counter;
    assert (Zeros(64) + plain)[i] == 0;
    ZeroFirst(Stream(key, nonce[4..], Counter(nonce, 0))[i]);
  }

  lemma TextByte(wide: bool, plain: seq<byte>, key: seq<byte>, nonce: seq<byte>, i: nat)
    requires |key| == 32 && |nonce| == 12 && i < |plain|
    ensures Whole(wide, Zeros(64) + plain, key, nonce)[64 + i] == Crypted(wide, plain, key, nonce)[i]
  {
    assert (Zeros(64) + plain)[64 + i] == plain[i];
    NextBlock(nonce);
    hide StreamByte, ByteFrom, XorByte, Counter, XorFrom, XorStream;
    if wide {
      XorFromAt(Zeros(64) + plain, key, nonce[4..], Counter(nonce, 0), 64 + i);
      XorFromAt(plain, key, nonce[4..], Counter(nonce, 1), i);
      ByteLater(key, nonce[4..], Counter(nonce, 0), i);
    } else {
      XorStreamAt(Zeros(64) + plain, key, nonce, 0, 64 + i);
      XorStreamAt(plain, key, nonce, 1, i);
      StreamLater(key, nonce, i);
    }
  }

  lemma XorFromAt(s: seq<byte>, key: seq<byte>, nonce: seq<byte>, c: nat, i: nat)
    requires |key| == 32 && |nonce| == 8 && i < |s|
    ensures XorFrom(s, key, nonce, c)[i] == XorByte(s[i], ByteFrom(key, nonce, c, i))
  {
    hide ByteFrom, XorByte;
  }

  lemma XorStreamAt(s: seq<byte>, key: seq<byte>, nonce: seq<byte>, c: nat, i: nat)
    requires |key| == 32 && |nonce| == 12 && i < |s|
    ensures XorStream(s, key, nonce, c)[i] == XorByte(s[i], StreamByte(key, nonce, c, i))
  {
    hide StreamByte, XorByte;
  }

  lemma ByteLater(key: seq<byte>, nonce: seq<byte>, c: nat, i: nat)
    requires |key| == 32 && |nonce| == 8
    ensures ByteFrom(key, nonce, c, 64 + i) == ByteFrom(key, nonce, c + 1, i)
  {
    hide Stream;
    Later(i);
  }

  lemma StreamLater(key: seq<byte>, nonce: seq<byte>, i: nat)
    requires |key| == 32 && |nonce| == 12
    ensures StreamByte(key, nonce, 0, 64 + i) == StreamByte(key, nonce, 1, i)
  {
    hide Stream, Counter;
    Later(i);
  }

  lemma NextBlock(nonce: seq<byte>)
    requires |nonce| == 12
    ensures Counter(nonce, 1) == Counter(nonce, 0) + 1
  {
    hide Load32;
  }

  lemma ZeroFirst(x: byte)
    ensures XorByte(0, x) == x
  {
    Pow2Byte();
    XorBitsCommute(0, x as int, 8);
    XorZeroBits(x as int, 8);
  }

  lemma Later(i: nat)
    ensures (64 + i) / 64 == 1 + i / 64 && (64 + i) % 64 == i % 64
  {}

  // The nonce.

  /** A nonce is four zero bytes and the counter, so different counters have different nonces. */
  lemma NonceHolds(c: u64)
    ensures Nonce(c)[..4] == Zeros(4) && LE(Nonce(c)[4..]) == c as int
  {
    Store64Holds(c as int);
    assert Nonce(c)[4..] == Store64(c as int);
  }

  lemma Store64Holds(n: nat)
    requires n < TWO_64
    ensures LE(Store64(n)) == n
  {
    var l, h := Store32(Low(n)), Store32(High(n));
    LEConcat(l, h);
    FourBytesWide();
    TwoWords(n);
    hide LE, Store32, Pow256, Low, High;
  }

  lemma FourBytesWide()
    ensures Pow256(4) == TWO_32
  {
    assert Pow256(4) == 0x100*Pow256(3) == 0x1_0000*Pow256(2) == 0x1_0000_0000;
  }

  // The authenticated string.

  /** Its length is a multiple of sixteen, and it ends with the two lengths. */
  lemma MacDataHolds(ad: seq<byte>, text: seq<byte>)
    requires |ad| < TWO_64 && |text| < TWO_64
    ensures var d := MacData(ad, text); var m := |ad| + Gap(|ad|); var n := m + |text| + Gap(|text|);
      && |d| == n + 16 && d[..|ad|] == ad && d[m..m + |text|] == text
      && LE(d[n..n + 8]) == |ad| && LE(d[n + 8..]) == |text|
      && (forall i | |ad| <= i < m :: d[i] == 0) && (forall i | m + |text| <= i < n :: d[i] == 0)
    ensures Gap(|ad|) < 16 && (|ad| + Gap(|ad|)) % 16 == 0 && Gap(|text|) < 16 && (|text| + Gap(|text|)) % 16 == 0
  {
    GapRounds(|ad|);
    GapRounds(|text|);
    Store64Holds(|ad|);
    Store64Holds(|text|);
    hide Store64, Gap, LE, Zeros;
    Pieces(ad, Gap(|ad|), text, Gap(|text|), Store64(|ad|), Store64(|text|));
  }

  lemma Pieces(a: seq<byte>, g: nat, t: seq<byte>, h: nat, x: seq<byte>, y: seq<byte>)
    requires |x| == |y| == 8
    ensures var d := a + Zeros(g) + t + Zeros(h) + (x + y); var m := |a| + g; var n := m + |t| + h;
      && |d| == n + 16 && d[..|a|] == a && d[m..m + |t|] == t && d[n..n + 8] == x && d[n + 8..] == y
      && (forall i | |a| <= i < m :: d[i] == 0) && (forall i | m + |t| <= i < n :: d[i] == 0)
  {
    var d := a + Zeros(g) + t + Zeros(h) + (x + y);
    var n := |a| + g + |t| + h;
    assert d[n..] == x + y;
    assert d[n..n + 8] == d[n..][..8] && d[n + 8..] == d[n..][8..];
  }

  lemma GapRounds(n: nat)
    ensures Gap(n) < 16 && (n + Gap(n)) % 16 == 0
  {}

  /** No two pairs of associated data and ciphertext are authenticated alike. */
  lemma MacDataInjective(ad: seq<byte>, text: seq<byte>, ad': seq<byte>, text': seq<byte>)
    requires |ad| < TWO_64 && |text| < TWO_64 && |ad'| < TWO_64 && |text'| < TWO_64
    requires MacData(ad, text) == MacData(ad', text')
    ensures ad == ad' && text == text'
  {
    hide MacData, LE;
    MacDataHolds(ad, text);
    MacDataHolds(ad', text');
  }

  // The authenticator.

  ghost function Power(r: int, n: nat): int {
    if n == 0 then 1 else r*Power(r, n - 1)
  }

  function Blocks16(n: nat): nat { (n + 15) / 16 }

  /** The i-th block as a coefficient, with the one that marks its end */
  ghost function Coefficient(msg: seq<byte>, i: nat): int
    requires 16*i <= |msg|
  {
    var b := if 16*(i + 1) <= |msg| then msg[16*i..16*(i + 1)] else msg[16*i..];
    LE(b) + Pow256(|b|)
  }

  /** c0 r^q + c1 r^(q - 1) + ... + c(n - 1) r^(q - n + 1) */
  ghost function Polynomial(r: int, msg: seq<byte>, q: nat, n: nat): int
    requires n <= q && 16*n <= |msg| + 15
  {
    if n == 0 then 0 else Polynomial(r, msg, q, n - 1) + Coefficient(msg, n - 1)*Power(r, q - n + 1)
  }

  /** The accumulator is the value of the polynomial whose coefficients are the blocks. */
  lemma {:induction false} AccPolynomial(r: int, msg: seq<byte>)
    ensures Acc(r, msg) == Polynomial(r, msg, Blocks16(|msg|), Blocks16(|msg|)) % Q
    decreases |msg|
  {
    hide Acc, Polynomial, Coefficient, LE, Pow256, Blocks16;
    if msg == [] {
      Nothing(r, msg);
    } else {
      var q := Blocks16(|msg|);
      Count(|msg|);
      var n := 16*(q - 1);
      AccPolynomial(r, msg[..n]);
      SameFront(r, msg, n, q - 1, q - 1);
      Raise(r, msg, q - 1, q - 1);
      LastBlock(msg, n);
      AccLast(r, msg, n);
      PolynomialLast(r, msg, q);
      Reduce(r, Polynomial(r, msg, q - 1, q - 1), Coefficient(msg, q - 1));
    }
  }

  lemma Nothing(r: int, msg: seq<byte>)
    requires msg == []
    ensures Acc(r, msg) == Polynomial(r, msg, Blocks16(|msg|), Blocks16(|msg|)) % Q == 0
  {}

  lemma Count(n: nat)
    requires n > 0
    ensures var q := Blocks16(n); q > 0 && 16*(q - 1) == (n - 1) / 16 * 16 && Blocks16(16*(q - 1)) == q - 1
    ensures 16*(Blocks16(n) - 1) < n <= 16*Blocks16(n)
  {}

  lemma AccLast(r: int, msg: seq<byte>, n: nat)
    requires msg != [] && n == (|msg| - 1) / 16 * 16
    ensures Acc(r, msg) == ((Acc(r, msg[..n]) + (LE(msg[n..]) + Pow256(|msg| - n)))*r) % Q
  {
    hide LE, Pow256;
  }

  lemma PolynomialLast(r: int, msg: seq<byte>, q: nat)
    requires q > 0 && 16*q <= |msg| + 15
    ensures Polynomial(r, msg, q, q) == Polynomial(r, msg, q, q - 1) + Coefficient(msg, q - 1)*r
  {
    hide Coefficient;
    assert Power(r, 1) == r;
  }

  lemma LastBlock(msg: seq<byte>, n: nat)
    requires n % 16 == 0 && n < |msg| <= n + 16
    ensures Coefficient(msg, n / 16) == LE(msg[n..]) + Pow256(|msg| - n)
  {
    hide LE, Pow256;
    assert msg[n..|msg|] == msg[n..];
  }

  lemma Reduce(r: int, p: int, c: int)
    ensures ((p % Q + c)*r) % Q == (r*p + c*r) % Q
  {
    assert (p % Q + c)*r == r*p + c*r + Q*(-(p / Q)*r) by {
      assert p == p % Q + Q*(p / Q);
      Distribute(r, p % Q, p / Q, c);
    }
    ModShift((p % Q + c)*r, r*p + c*r, -(p / Q)*r, Q);
  }

  lemma Distribute(r: int, a: int, b: int, c: int)
    ensures (a + c)*r == r*(a + Q*b) + c*r + Q*(-b*r)
  {}

  lemma {:induction false} SameFront(r: int, msg: seq<byte>, m: nat, q: nat, n: nat)
    requires m <= |msg| && n <= q && 16*n <= m
    ensures Polynomial(r, msg[..m], q, n) == Polynomial(r, msg, q, n)
  {
    if n > 0 {
      SameFront(r, msg, m, q, n - 1);
      assert msg[..m][16*(n - 1)..16*n] == msg[16*(n - 1)..16*n];
    }
  }

  lemma {:induction false} Raise(r: int, msg: seq<byte>, q: nat, n: nat)
    requires n <= q && 16*n <= |msg| + 15
    ensures Polynomial(r, msg, q + 1, n) == r*Polynomial(r, msg, q, n)
  {
    if n > 0 {
      Raise(r, msg, q, n - 1);
      Factor(r, Polynomial(r, msg, q, n - 1), Coefficient(msg, n - 1), Power(r, q - n + 1));
    }
  }

  lemma Factor(r: int, p: int, c: int, w: int)
    ensures r*p + c*(r*w) == r*(p + c*w)
  {}

  /** The bits that RFC 8439 clears: the top four of every word, the bottom two of every word but the first */
  predicate Cleared(t: nat) { t % 32 >= 28 || (t >= 32 && t % 32 < 2) }

  lemma ClampBits(k: seq<byte>, t: nat)
    requires |k| == 32 && t < 128
    ensures Bit(R(k), t) == (Bit(LE(k[..16]), t) && !Cleared(t))
  {
    hide LE, Bit;
    Ladder.ScalarBits(Clamped(k), t);
    Ladder.ScalarBits(k[..16], t);
    ClampByte(k, t / 8, t % 8);
  }

  lemma ClampByte(k: seq<byte>, i: nat, j: nat)
    requires |k| == 32 && i < 16 && j < 8
    ensures Bit(Clamped(k)[i] as int, j) == (Bit(k[i] as int, j) && !Cleared(8*i + j))
  {
    ClampedAt(k, i);
    ClearedAt(i, j);
    hide Bit, Cleared, Clamped;
    if i % 4 == 3 {
      TopBits(k[i], j);
    } else if i % 4 == 0 && i > 0 {
      BottomBits(k[i], j);
    }
  }

  lemma ClampedAt(k: seq<byte>, i: nat)
    requires |k| == 32 && i < 16
    ensures Clamped(k)[i] == if i % 4 == 3 then k[i] % 16 else if i % 4 == 0 && i > 0 then k[i] - k[i] % 4 else k[i]
  {}

  lemma ClearedAt(i: nat, j: nat)
    requires i < 16 && j < 8
    ensures Cleared(8*i + j) == ((i % 4 == 3 && j >= 4) || (i % 4 == 0 && i > 0 && j < 2))
  {}

  lemma TopBits(b: byte, j: nat)
    requires j < 8
    ensures Bit((b % 16) as int, j) == (Bit(b as int, j) && j < 4)
  {
    var x, r := (b % 16) as int, (b / 16) as int;
    assert Pow2(4) == 16;
    hide Bit, Pow2;
    if j < 4 {
      LowBits(x, r, 4, j);
    } else {
      HighBits(x, 0, 4, j - 4);
      NoBit(j - 4);
    }
  }

  lemma BottomBits(b: byte, j: nat)
    requires j < 8
    ensures Bit((b - b % 4) as int, j) == (Bit(b as int, j) && j >= 2)
  {
    var x, y := b as int, (b - b % 4) as int;
    assert y % 2 == 0 && y / 2 % 2 == 0 && y / 2 / 2 == x / 2 / 2;
    if j >= 2 {
      assert Bit(x, j) == Bit(x / 2, j - 1) == Bit(x / 2 / 2, j - 2);
      assert Bit(y, j) == Bit(y / 2, j - 1) == Bit(y / 2 / 2, j - 2);
    } else if j == 1 {
      assert Bit(y, 1) == Bit(y / 2, 0);
    }
  }
}
