/**
 The sliding replay window of src/wg_counter.c: 128 words of 64 bits used as
 a ring, with a high-water mark.
 */
module Replay {
  import opened MachineInts
  import opened Bits

  const WINDOW: nat := 8192
  const WORDS: nat := 128
  /** WG_REJECT_AFTER_MESSAGES = UINT64_MAX - 8192 - 1 */
  const LIMIT: nat := 0xffff_ffff_ffff_dffe

  /** The contents of WgReplayCounter */
  datatype State = State(counter: nat, ring: seq<nat>)

  /** What the C structure can hold, with a high-water mark that the code can have set */
  predicate Fits(s: State) {
    && |s.ring| == WORDS && s.counter < LIMIT
    && forall i | 0 <= i < |s.ring| :: s.ring[i] < 0x1_0000_0000_0000_0000
  }

  function Word(c: nat): nat { c / 64 }

  function Zeros(): (z: seq<nat>)
    ensures |z| == WORDS
  {
    seq(WORDS, i => 0)
  }

  const INITIAL: State := State(0, Zeros())

  /** The clearing loop: the `diff` words after `word` are zeroed. */
  function Cleared(ring: seq<nat>, word: nat, diff: nat): (r: seq<nat>)
    requires |ring| == WORDS
    ensures |r| == WORDS
  {
    if diff == 0 then ring
    else Cleared(ring, word, diff - 1)[(word + diff) % WORDS := 0]
  }

  /** The high-water mark moves up to c. */
  function Advance(s: State, c: nat): (t: State)
    requires |s.ring| == WORDS && c > s.counter
    ensures |t.ring| == WORDS
  {
    var diff := Word(c) - Word(s.counter);
    State(c, if diff >= WORDS then Zeros() else Cleared(s.ring, Word(s.counter), diff))
  }

  /** What wg_counter_validate does to the window, and what it answers */
  function Step(s: State, c: nat): (r: (State, bool))
    requires |s.ring| == WORDS
    ensures |r.0.ring| == WORDS
  {
    if c >= LIMIT || (s.counter >= WINDOW && c < s.counter - WINDOW) then (s, false)
    else
      var t := if c > s.counter then Advance(s, c) else s;
      var i := Word(c) % WORDS;
      if Bit(t.ring[i], c % 64) then (t, false)
      else (t.(ring := t.ring[i := SetBit(t.ring[i], c % 64)]), true)
  }

  lemma {:induction false} ClearedFits(ring: seq<nat>, word: nat, diff: nat)
    requires |ring| == WORDS && forall i | 0 <= i < |ring| :: ring[i] < 0x1_0000_0000_0000_0000
    ensures forall i | 0 <= i < WORDS :: Cleared(ring, word, diff)[i] < 0x1_0000_0000_0000_0000
  {
    if diff > 0 { ClearedFits(ring, word, diff - 1); }
  }

  lemma StepFits(s: State, c: nat)
    requires Fits(s)
    ensures Fits(Step(s, c).0)
  {
    hide Bit, SetBit, Pow2;
    if c > s.counter { ClearedFits(s.ring, Word(s.counter), Word(c) - Word(s.counter)); }
    if c < LIMIT {
      var t := if c > s.counter then Advance(s, c) else s;
      hide Cleared;
      assert forall i | 0 <= i < WORDS :: t.ring[i] < 0x1_0000_0000_0000_0000;
      SetBitFits(t.ring[Word(c) % WORDS] as u64, c % 64);
    }
  }

  // The imperative counter.

  class ReplayCounter {
    var counter: u64
    const backtrack: array<u64>

    ghost predicate Valid()
      reads this
    {
      backtrack.Length == WORDS && counter as nat < LIMIT
    }

    ghost function Ring(): (r: seq<nat>)
      requires backtrack.Length == WORDS
      reads backtrack
      ensures |r| == WORDS
    {
      seq(WORDS, i requires 0 <= i < WORDS reads backtrack => backtrack[i] as nat)
    }

    ghost function Contents(): State
      requires backtrack.Length == WORDS
      reads this, backtrack
    {
      State(counter as nat, Ring())
    }

    constructor ()
      ensures Valid() && fresh(backtrack) && Contents() == INITIAL
    {
      counter := 0;
      backtrack := new u64[WORDS](i => 0);
    }

    /** The window embedded in a session */
    constructor From(s: State)
      requires Fits(s)
      ensures Valid() && fresh(backtrack) && Contents() == s
    {
      counter := s.counter as u64;
      backtrack := new u64[WORDS](i requires 0 <= i < WORDS => s.ring[i] as u64);
      new;
      assert Ring() == s.ring;
    }

    method Save() returns (s: State)
      requires Valid()
      ensures s == Contents()
    {
      s := State(counter as nat, seq(WORDS, i requires 0 <= i < WORDS reads backtrack => backtrack[i] as nat));
      assert s.ring == Ring();
    }

    /** memset(rc->backtrack, 0, sizeof(rc->backtrack)) */
    method ClearAll()
      requires Valid()
      modifies backtrack
      ensures Ring() == Zeros()
    {
      for i := 0 to WORDS
        invariant forall k | 0 <= k < i :: backtrack[k] == 0
      {
        backtrack[i] := 0;
      }
    }

    method ClearWords(word: u64, diff: u64)
      requires Valid() && word < 0x400_0000_0000_0000 && diff < 128
      modifies backtrack
      ensures Ring() == Cleared(old(Ring()), word as nat, diff as nat)
    {
      var i: u64 := 1;
      while i <= diff
        invariant 1 <= i <= diff + 1
        invariant Ring() == Cleared(old(Ring()), word as nat, i as nat - 1)
      {
        var k := (word + i) % 128;
        backtrack[k] := 0;
        assert Ring() == Cleared(old(Ring()), word as nat, i as nat - 1)[k as nat := 0];
        i := i + 1;
      }
    }

    method Validate(c: u64) returns (ok: bool)
      requires Valid()
      modifies this, backtrack
      ensures Valid()
      ensures (Contents(), ok) == Step(old(Contents()), c as nat)
    {
      hide Bit, SetBit, Cleared, Zeros, Pow2;
      if c as nat >= LIMIT {
        return false;
      }
      if counter >= 8192 && c < counter - 8192 {
        return false;
      }
      var wordIdx := c / 64 % 128;
      if c > counter {
        var newWord, oldWord := c / 64, counter / 64;
        var diff := newWord - oldWord;
        if diff >= 128 {
          ClearAll();
        } else {
          ClearWords(oldWord, diff);
        }
        counter := c;
      }
      if Bit(backtrack[wordIdx] as nat, (c % 64) as nat) {
        return false;
      }
      SetBitFits(backtrack[wordIdx], (c % 64) as nat);
      ghost var ring := Ring();
      backtrack[wordIdx] := SetBit(backtrack[wordIdx] as nat, (c % 64) as nat) as u64;
      assert Ring() == ring[wordIdx as nat := backtrack[wordIdx] as nat];
      return true;
    }
  }

  lemma SetBitFits(w: u64, t: nat)
    requires t < 64
    ensures SetBit(w as nat, t) < 0x1_0000_0000_0000_0000
  {
    assert Pow2(64) == 0x1_0000_0000_0000_0000 by { Pow2Word(); }
    SetBitBound(w as nat, t, 64);
  }
}
