/** Byte strings as little-endian numbers. */
module Bytes {
  import opened MachineInts

  /** The number a little-endian byte string stands for */
  ghost function LE(s: seq<byte>): (n: nat) {
    if s == [] then 0 else s[0] as int + 0x100*LE(s[1..])
  }

  ghost function Pow256(n: nat): (p: nat)
    ensures p > 0
  {
    if n == 0 then 1 else 0x100*Pow256(n - 1)
  }

  lemma {:induction false} LEBound(s: seq<byte>)
    ensures LE(s) < Pow256(|s|)
  {
    if s != [] {
      LEBound(s[1..]);
    }
  }

  /** A byte string of given length is determined by its number. */
  lemma {:induction false} LEInjective(s: seq<byte>, t: seq<byte>)
    requires |s| == |t| && LE(s) == LE(t)
    ensures s == t
  {
    if s != [] {
      assert LE(s) % 0x100 == s[0] as int && LE(t) % 0x100 == t[0] as int;
      LEInjective(s[1..], t[1..]);
      assert s == [s[0]] + s[1..] && t == [t[0]] + t[1..];
    }
  }

  lemma LEStep(s: seq<byte>, i: nat)
    requires i < |s|
    ensures LE(s[i..]) == s[i] as int + 0x100*LE(s[i + 1..])
  {
    assert s[i..][1..] == s[i + 1..];
  }

  lemma {:induction false} LEConcat(s: seq<byte>, t: seq<byte>)
    ensures LE(s + t) == LE(s) + Pow256(|s|)*LE(t)
  {
    if s == [] {
      assert s + t == t;
    } else {
      LEConcat(s[1..], t);
      assert (s + t)[1..] == s[1..] + t;
      Associate(Pow256(|s| - 1), LE(t));
    }
  }

  lemma Associate(p: int, x: int)
    ensures (0x100*p)*x == 0x100*(p*x)
  {}

  // load24_le, load32_le, store32_le.

  function Load24(s: seq<byte>, i: nat): (w: u32)
    requires i + 3 <= |s|
    ensures w < 0x100_0000
  {
    s[i] as u32 + 0x100*(s[i + 1] as u32) + 0x1_0000*(s[i + 2] as u32)
  }

  function Load32(s: seq<byte>, i: nat): (w: u32)
    requires i + 4 <= |s|
  {
    s[i] as u32 + 0x100*(s[i + 1] as u32) + 0x1_0000*(s[i + 2] as u32) + 0x100_0000*(s[i + 3] as u32)
  }

  lemma Load24LE(s: seq<byte>, i: nat)
    requires i + 3 <= |s|
    ensures LE(s[i..]) == Load24(s, i) as int + 0x100_0000*LE(s[i + 3..])
  {
    LEStep(s, i);
    LEStep(s, i + 1);
    LEStep(s, i + 2);
  }

  lemma Load32LE(s: seq<byte>, i: nat)
    requires i + 4 <= |s|
    ensures LE(s[i..]) == Load32(s, i) as int + 0x1_0000_0000*LE(s[i + 4..])
  {
    LEStep(s, i);
    Load24LE(s, i + 1);
  }

  function Store32(w: u32): (s: seq<byte>)
    ensures |s| == 4
    ensures LE(s) == w as int
  {
    var w1 := w / 0x100;
    var w2 := w1 / 0x100;
    var s := [(w % 0x100) as byte, (w1 % 0x100) as byte, (w2 % 0x100) as byte, (w2 / 0x100) as byte];
    assert LE(s) == w as int by {
      assert s[4..] == [] && s[0..] == s;
      Load32LE(s, 0);
    }
    s
  }

  // store32_le_buf.

  ghost function WordsVal(ws: seq<u32>): nat {
    if ws == [] then 0 else ws[0] as int + 0x1_0000_0000*WordsVal(ws[1..])
  }

  function Store32All(ws: seq<u32>): (s: seq<byte>)
    ensures |s| == 4*|ws|
  {
    if ws == [] then [] else Store32(ws[0]) + Store32All(ws[1..])
  }

  lemma {:induction false} Store32AllLE(ws: seq<u32>)
    ensures LE(Store32All(ws)) == WordsVal(ws)
  {
    if ws != [] {
      Store32AllLE(ws[1..]);
      LEConcat(Store32(ws[0]), Store32All(ws[1..]));
      assert Pow256(4) == 0x100*Pow256(3) == 0x1_0000*Pow256(2) == 0x1_0000_0000;
    }
  }

  /** What Store32All writes, Load32 reads. */
  lemma {:induction false} StoredWords(ws: seq<u32>, s: seq<byte>)
    requires |s| == 4*|ws| && forall i | 0 <= i < |ws| :: Load32(s, 4*i) == ws[i]
    ensures Store32All(ws) == s
  {
    if ws != [] {
      var t := s[4..];
      forall i | 0 <= i < |ws| - 1
        ensures Load32(t, 4*i) == ws[1..][i]
      {
        assert Load32(s, 4*(i + 1)) == ws[i + 1];
      }
      StoredWords(ws[1..], t);
      assert Load32(s, 4*0) == ws[0];
      Load32LE(s[..4], 0);
      LEInjective(Store32(ws[0]), s[..4]);
    }
  }

  lemma FourWords(w0: u32, w1: u32, w2: u32, w3: u32)
    ensures WordsVal([w0, w1, w2, w3])
         == w0 as int + 0x1_0000_0000*(w1 as int) + 0x1_0000_0000_0000_0000*(w2 as int)
            + 0x1_0000_0000_0000_0000_0000_0000*(w3 as int)
  {
    var ws := [w0, w1, w2, w3];
    assert ws[1..][1..] == ws[2..] && ws[2..][1..] == ws[3..] && ws[3..][1..] == [];
    assert WordsVal(ws[3..]) == w3 as int;
    assert WordsVal(ws[2..]) == w2 as int + 0x1_0000_0000*WordsVal(ws[3..]);
    assert WordsVal(ws[1..]) == w1 as int + 0x1_0000_0000*WordsVal(ws[2..]);
  }

  /** memcpy(buf + at, src, |src|) */
  method CopyInto(buf: array<byte>, at: nat, src: seq<byte>)
    requires at + |src| <= buf.Length
    modifies buf
    ensures buf[..] == old(buf[..at]) + src + old(buf[at + |src|..])
  {
    for i := 0 to |src|
      invariant forall k | 0 <= k < at :: buf[k] == old(buf[k])
      invariant forall k | 0 <= k < i :: buf[at + k] == src[k]
      invariant forall k | at + i <= k < buf.Length :: buf[k] == old(buf[k])
    {
      buf[at + i] := src[i];
    }
  }
}
