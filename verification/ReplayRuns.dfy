/**
 What the replay window decides, over every sequence of calls.

 The ring refines a machine over a plain set of marks.  A counter in the word
 exactly 128 behind the high-water word shares that word's slot, so it is
 marked under the number 8192 above it.  Everything else follows from that
 machine: what is rejected in every run, when the window is exactly the set
 of accepted counters, and exactly when a counter is accepted twice.
 */
module ReplayRuns {
  import opened Bits
  import opened Replay

  // The set machine.

  datatype Marks = Marks(high: nat, marked: set<nat>)

  /** x is in one of the last 128 words ending at the high-water word. */
  predicate InWindow(x: nat, high: nat) {
    Word(x) <= Word(high) < Word(x) + WORDS
  }

  /** x is in the word exactly 128 behind the high-water word. */
  predicate Aliased(x: nat, high: nat) {
    Word(x) + WORDS == Word(high)
  }

  function Max(a: nat, b: nat): nat { if a < b then b else a }

  function MarkStep(a: Marks, c: nat): (Marks, bool) {
    if c >= LIMIT || c + WINDOW < a.high then (a, false)
    else
      var high := Max(a.high, c);
      var kept := set x | x in a.marked && Word(high) < Word(x) + WORDS;
      var key := if Aliased(c, high) then c + WINDOW else c;
      (Marks(high, kept + {key}), key !in kept)
  }

  /** A step adds at most the mark of the counter it accepts. */
  lemma NewMark(a: Marks, c: nat, x: nat)
    requires x in MarkStep(a, c).0.marked && x !in a.marked
    ensures MarkStep(a, c).1
    ensures x == if Aliased(c, a.high) then c + WINDOW else c
    ensures x > MarkStep(a, c).0.high ==> Aliased(c, a.high)
  {}

  // Refinement.

  predicate Marked(s: State, x: nat)
    requires |s.ring| == WORDS
  {
    Bit(s.ring[Word(x) % WORDS], x % 64)
  }

  ghost predicate Refines(s: State, a: Marks) {
    && |s.ring| == WORDS
    && s.counter == a.high
    && (forall x: nat | InWindow(x, a.high) :: Marked(s, x) == (x in a.marked))
    && (forall x | x in a.marked :: InWindow(x, a.high))
  }

  lemma SameSlot(v: nat, w: nat)
    requires v % WORDS == w % WORDS && v < w + WORDS && w < v + WORDS
    ensures v == w
  {}

  /** The clearing loop zeroes the slots of the new words and no other. */
  lemma {:induction false} ClearedAt(ring: seq<nat>, word: nat, diff: nat, w: nat)
    requires |ring| == WORDS && diff < WORDS && w <= word + diff < w + WORDS
    ensures Cleared(ring, word, diff)[w % WORDS] == if w > word then 0 else ring[w % WORDS]
  {
    if diff > 0 {
      if w == word + diff {
      } else {
        ClearedAt(ring, word, diff - 1, w);
        if w % WORDS == (word + diff) % WORDS {
          SameSlot(w, word + diff);
        }
      }
    }
  }

  /** After the high-water mark moved, the window shows the old marks and nothing new. */
  lemma AdvanceMarked(s: State, a: Marks, c: nat, x: nat)
    requires Refines(s, a) && c > s.counter && InWindow(x, c)
    ensures Marked(Advance(s, c), x) == (x in a.marked)
  {
    hide Bit, Cleared;
    var diff := Word(c) - Word(s.counter);
    if diff >= WORDS {
      ZeroBits(x % 64);
    } else {
      ClearedAt(s.ring, Word(s.counter), diff, Word(x));
      if Word(x) > Word(s.counter) {
        ZeroBits(x % 64);
      }
    }
  }

  /** Setting the bit of a number in the window marks that number and no other. */
  lemma SetMarked(s: State, high: nat, key: nat, x: nat)
    requires |s.ring| == WORDS && InWindow(key, high) && InWindow(x, high)
    ensures var i := Word(key) % WORDS;
            Marked(s.(ring := s.ring[i := SetBit(s.ring[i], key % 64)]), x) == (x == key || Marked(s, x))
  {
    hide Bit, SetBit;
    var i := Word(key) % WORDS;
    if Word(x) % WORDS == i {
      SameSlot(Word(x), Word(key));
      SetBitBits(s.ring[i], key % 64, x % 64);
    }
  }

  /** The number under which an admitted counter is marked is in the window and in the counter's slot. */
  lemma KeyFacts(c: nat, before: nat, high: nat)
    requires c + WINDOW >= before && high == Max(before, c)
    ensures var key := if Aliased(c, high) then c + WINDOW else c;
            InWindow(key, high) && Word(key) % WORDS == Word(c) % WORDS && key % 64 == c % 64
  {}

  /** wg_counter_validate refines the set machine: same answer, same marks, for every counter. */
  lemma StepRefines(s: State, a: Marks, c: nat)
    requires Refines(s, a)
    ensures Refines(Step(s, c).0, MarkStep(a, c).0)
    ensures Step(s, c).1 == MarkStep(a, c).1
  {
    hide Bit, SetBit, Cleared, Zeros;
    if c < LIMIT && c + WINDOW >= a.high {
      var t := if c > s.counter then Advance(s, c) else s;
      var (b, ok) := MarkStep(a, c);
      var high := Max(a.high, c);
      var key := if Aliased(c, high) then c + WINDOW else c;
      var kept := set x | x in a.marked && Word(high) < Word(x) + WORDS;
      KeyFacts(c, a.high, high);
      forall x: nat | InWindow(x, high)
        ensures Marked(t, x) == (x in kept)
      {
        if c > s.counter { AdvanceMarked(s, a, c, x); }
      }
      assert Marked(t, key) == Bit(t.ring[Word(c) % WORDS], c % 64);
      var u := Step(s, c).0;
      forall x: nat | InWindow(x, high)
        ensures Marked(u, x) == (x in b.marked)
      {
        SetMarked(t, high, key, x);
      }
    }
  }

  // Runs.

  /** The window after a sequence of calls, from the zeroed state */
  function Run(calls: seq<nat>): (s: State)
    ensures |s.ring| == WORDS
  {
    if calls == [] then INITIAL
    else Step(Run(calls[..|calls| - 1]), calls[|calls| - 1]).0
  }

  lemma {:induction false} RunFits(calls: seq<nat>)
    ensures Fits(Run(calls))
  {
    hide Step;
    if calls != [] {
      RunFits(calls[..|calls| - 1]);
      StepFits(Run(calls[..|calls| - 1]), calls[|calls| - 1]);
    }
  }

  /** The answer to call j */
  predicate Answer(calls: seq<nat>, j: nat)
    requires j < |calls|
  {
    Step(Run(calls[..j]), calls[j]).1
  }

  function MarkRun(calls: seq<nat>): Marks {
    if calls == [] then Marks(0, {})
    else MarkStep(MarkRun(calls[..|calls| - 1]), calls[|calls| - 1]).0
  }

  /** The high-water mark when call j is made */
  function High(calls: seq<nat>, j: nat): nat
    requires j <= |calls|
  {
    Run(calls[..j]).counter
  }

  lemma {:induction false} RunRefines(calls: seq<nat>)
    ensures Refines(Run(calls), MarkRun(calls))
  {
    hide Step, MarkStep;
    if calls == [] {
      forall x: nat | InWindow(x, 0)
        ensures !Marked(INITIAL, x)
      {
        ZeroBits(x % 64);
      }
    } else {
      RunRefines(calls[..|calls| - 1]);
      StepRefines(Run(calls[..|calls| - 1]), MarkRun(calls[..|calls| - 1]), calls[|calls| - 1]);
    }
  }

  /** The answers are those of the set machine. */
  lemma AnswerIsMark(calls: seq<nat>, j: nat)
    requires j < |calls|
    ensures Answer(calls, j) == MarkStep(MarkRun(calls[..j]), calls[j]).1
    ensures High(calls, j) == MarkRun(calls[..j]).high
  {
    hide Step, MarkStep, Run, MarkRun;
    RunRefines(calls[..j]);
    StepRefines(Run(calls[..j]), MarkRun(calls[..j]), calls[j]);
  }

  /** One more call */
  lemma MarkRunStep(calls: seq<nat>, j: nat)
    requires j < |calls|
    ensures MarkRun(calls[..j + 1]) == MarkStep(MarkRun(calls[..j]), calls[j]).0
  {
    assert calls[..j + 1][..j] == calls[..j];
  }

  /** A mark stays until its word leaves the window; the high-water mark never falls. */
  lemma {:induction false} MarksStay(calls: seq<nat>, i: nat, j: nat, x: nat)
    requires i <= j <= |calls|
    ensures MarkRun(calls[..i]).high <= MarkRun(calls[..j]).high
    ensures x in MarkRun(calls[..i]).marked && Word(MarkRun(calls[..j]).high) < Word(x) + WORDS
            ==> x in MarkRun(calls[..j]).marked
    decreases j
  {
    hide MarkRun;
    if i < j {
      MarksStay(calls, i, j - 1, x);
      MarkRunStep(calls, j - 1);
    }
  }

  /** Once above zero, the high-water mark is itself marked. */
  lemma {:induction false} HighMarked(calls: seq<nat>, j: nat)
    requires j <= |calls|
    ensures var a := MarkRun(calls[..j]); a.high > 0 ==> a.high in a.marked
  {
    if j > 0 {
      hide MarkRun;
      HighMarked(calls, j - 1);
      MarkRunStep(calls, j - 1);
    }
  }

  // The theorems.

  /**
   A counter accepted once is rejected whenever it is presented again while
   its word is among the last 128 words ending at the high-water word.
   */
  lemma NoReplay(calls: seq<nat>, i: nat, j: nat)
    requires i < j < |calls| && calls[i] == calls[j]
    requires Answer(calls, i)
    requires Word(High(calls, j)) < Word(calls[j]) + WORDS
    ensures !Answer(calls, j)
  {
    hide Answer, High, MarkRun;
    var c := calls[i];
    AnswerIsMark(calls, i);
    AnswerIsMark(calls, j);
    MarkRunStep(calls, i);
    MarksStay(calls, i, j, c);
    MarksStay(calls, i + 1, j, c);
  }

  /** In every run a counter at or below the high-water mark minus 8192 is rejected. */
  lemma TooOld(calls: seq<nat>, j: nat)
    requires j < |calls| && calls[j] + WINDOW <= High(calls, j)
    ensures !Answer(calls, j)
  {
    hide Answer, High, MarkRun;
    AnswerIsMark(calls, j);
    HighMarked(calls, j);
  }

  ghost predicate AcceptedBefore(calls: seq<nat>, j: nat, c: nat)
    requires j <= |calls|
  {
    exists i | 0 <= i < j :: calls[i] == c && Answer(calls, i)
  }

  /** Without calls from the aliased word, only accepted counters are marked. */
  lemma {:induction false} MarksAccepted(calls: seq<nat>, j: nat, x: nat)
    requires j <= |calls| && x in MarkRun(calls[..j]).marked
    requires forall k | 0 <= k < j :: !Aliased(calls[k], High(calls, k))
    ensures AcceptedBefore(calls, j, x)
  {
    if j > 0 {
      hide MarkRun, MarkStep, Answer, High;
      MarkRunStep(calls, j - 1);
      AnswerIsMark(calls, j - 1);
      if x in MarkRun(calls[..j - 1]).marked {
        MarksAccepted(calls, j - 1, x);
        var i :| 0 <= i < j - 1 && calls[i] == x && Answer(calls, i);
      } else {
        NewMark(MarkRun(calls[..j - 1]), calls[j - 1], x);
        assert calls[j - 1] == x && Answer(calls, j - 1);
      }
    }
  }

  /**
   In a run that presents no counter from the word exactly 128 behind the
   high-water word, the window is the set of accepted counters: a counter is
   accepted exactly when it is below the limit, in the last 128 words or
   ahead, and not accepted before.
   */
  lemma ExactWindow(calls: seq<nat>, j: nat)
    requires j < |calls|
    requires forall k | 0 <= k <= j :: !Aliased(calls[k], High(calls, k))
    ensures Answer(calls, j)
       <==> calls[j] < LIMIT && Word(High(calls, j)) < Word(calls[j]) + WORDS && !AcceptedBefore(calls, j, calls[j])
  {
    hide MarkRun, Answer, High;
    var c := calls[j];
    var a := MarkRun(calls[..j]);
    AnswerIsMark(calls, j);
    assert !Aliased(c, a.high);
    if c in a.marked {
      MarksAccepted(calls, j, c);
    }
    if AcceptedBefore(calls, j, c) && Word(a.high) < Word(c) + WORDS {
      var i :| 0 <= i < j && calls[i] == c && Answer(calls, i);
      NoReplay(calls, i, j);
    }
  }

  lemma HighOf(calls: seq<nat>, j: nat)
    requires j <= |calls|
    ensures High(calls, j) == MarkRun(calls[..j]).high
  {
    RunRefines(calls[..j]);
  }

  lemma MarkInWindow(calls: seq<nat>, j: nat, x: nat)
    requires j <= |calls| && x in MarkRun(calls[..j]).marked
    ensures InWindow(x, High(calls, j))
  {
    RunRefines(calls[..j]);
  }

  /** Marks above the high-water mark come from calls with the aliased counter since the mark entered its word. */
  lemma {:induction false} MarksAhead(calls: seq<nat>, j: nat, x: nat) returns (k: nat)
    requires j <= |calls| && x in MarkRun(calls[..j]).marked && x > High(calls, j)
    ensures k < j && calls[k] + WINDOW == x && Word(High(calls, k + 1)) == Word(High(calls, j))
  {
    assert j > 0;
    k := j - 1;
    hide MarkRun, MarkStep, High;
    HighOf(calls, j - 1);
    HighOf(calls, j);
    MarkRunStep(calls, j - 1);
    if x in MarkRun(calls[..j - 1]).marked {
      MarksStay(calls, j - 1, j, x);
      MarkInWindow(calls, j - 1, x);
      k := MarksAhead(calls, j - 1, x);
      SameWord(High(calls, j - 1), High(calls, j), x);
    } else {
      NewMark(MarkRun(calls[..j - 1]), calls[j - 1], x);
    }
  }

  lemma SameWord(a: nat, b: nat, x: nat)
    requires a <= b < x && Word(x) <= Word(a)
    ensures Word(a) == Word(b)
  {}

  /**
   Exactly when an accepted counter is accepted again: its word is 128 behind
   the high-water word, it lies above the high-water mark minus 8192, and it
   was not presented since the mark entered its present word.
   */
  lemma AcceptedAgain(calls: seq<nat>, i: nat, j: nat)
    requires i < j < |calls| && calls[i] == calls[j]
    requires Answer(calls, i)
    ensures Answer(calls, j)
       <==> && Aliased(calls[j], High(calls, j))
            && High(calls, j) < calls[j] + WINDOW
            && forall k | 0 <= k < j && calls[k] == calls[j] :: Word(High(calls, k + 1)) < Word(High(calls, j))
  {
    hide MarkRun, Answer, High;
    var c := calls[j];
    var a := MarkRun(calls[..j]);
    AnswerIsMark(calls, i);
    AnswerIsMark(calls, j);
    MarksStay(calls, i, j, c);
    if Word(High(calls, j)) < Word(c) + WORDS {
      NoReplay(calls, i, j);
    } else if c + WINDOW <= High(calls, j) {
      TooOld(calls, j);
    } else {
      assert c <= a.high;
      if c + WINDOW in a.marked {
        var k := MarksAhead(calls, j, c + WINDOW);
      }
      forall k | 0 <= k < j && calls[k] == c
        ensures Word(High(calls, k + 1)) <= Word(High(calls, j))
        ensures Word(High(calls, k + 1)) == Word(High(calls, j)) ==> c + WINDOW in a.marked
      {
        HighOf(calls, k + 1);
        MarkRunStep(calls, k);
        MarksStay(calls, k, j, c);
        MarksStay(calls, k + 1, j, c + WINDOW);
      }
    }
  }

  // Every call of every run.

  /** The bit that a counter shares: its own, or that of the counter 8192 ahead when its word is aliased */
  function Key(c: nat, high: nat): nat { if Aliased(c, high) then c + WINDOW else c }

  /** An earlier call was accepted on this bit. */
  ghost predicate TakenBefore(calls: seq<nat>, j: nat, x: nat)
    requires j <= |calls|
  {
    exists k | 0 <= k < j :: Answer(calls, k) && Key(calls[k], High(calls, k)) == x
  }

  lemma {:induction false} MarksTaken(calls: seq<nat>, j: nat, x: nat)
    requires j <= |calls| && x in MarkRun(calls[..j]).marked
    ensures TakenBefore(calls, j, x)
  {
    if j > 0 {
      hide MarkRun, MarkStep, Answer, High;
      MarkRunStep(calls, j - 1);
      AnswerIsMark(calls, j - 1);
      if x in MarkRun(calls[..j - 1]).marked {
        MarksTaken(calls, j - 1, x);
        var i :| 0 <= i < j - 1 && Answer(calls, i) && Key(calls[i], High(calls, i)) == x;
      } else {
        NewMark(MarkRun(calls[..j - 1]), calls[j - 1], x);
        assert Answer(calls, j - 1) && Key(calls[j - 1], High(calls, j - 1)) == x;
      }
    }
  }

  lemma TakenStays(calls: seq<nat>, k: nat, j: nat)
    requires k < j <= |calls| && Answer(calls, k)
    requires Word(High(calls, j)) < Word(Key(calls[k], High(calls, k))) + WORDS
    ensures Key(calls[k], High(calls, k)) in MarkRun(calls[..j]).marked
  {
    hide MarkRun, Answer, High;
    AnswerIsMark(calls, k);
    HighOf(calls, j);
    MarkRunStep(calls, k);
    KeyMarked(MarkRun(calls[..k]), calls[k]);
    MarksStay(calls, k + 1, j, Key(calls[k], High(calls, k)));
  }

  lemma KeyMarked(a: Marks, c: nat)
    requires MarkStep(a, c).1
    ensures Key(c, a.high) in MarkStep(a, c).0.marked
  {}

  /**
   The answer to every call of every run: accepted exactly when the counter is
   below the limit, not more than 8192 behind, and no earlier call was accepted
   on its bit.
   */
  lemma ExactAnswer(calls: seq<nat>, j: nat)
    requires j < |calls|
    ensures Answer(calls, j)
       <==> && calls[j] < LIMIT && High(calls, j) <= calls[j] + WINDOW
            && !TakenBefore(calls, j, Key(calls[j], High(calls, j)))
  {
    hide MarkRun, Answer, High;
    var c, high := calls[j], High(calls, j);
    var x := Key(c, high);
    AnswerIsMark(calls, j);
    if x in MarkRun(calls[..j]).marked { MarksTaken(calls, j, x); }
    if high <= c + WINDOW && TakenBefore(calls, j, x) {
      var k :| 0 <= k < j && Answer(calls, k) && Key(calls[k], High(calls, k)) == x;
      TakenStays(calls, k, j);
    }
  }

  /**
   Exactly when a fresh counter is refused although it is in the window or
   ahead: a counter 8192 below it was accepted from the aliased word.
   */
  lemma FreshRefused(calls: seq<nat>, j: nat)
    requires j < |calls| && calls[j] < LIMIT && Word(High(calls, j)) < Word(calls[j]) + WORDS
    requires !AcceptedBefore(calls, j, calls[j])
    ensures !Answer(calls, j)
       <==> exists k | 0 <= k < j ::
              calls[k] + WINDOW == calls[j] && Answer(calls, k) && Aliased(calls[k], High(calls, k))
  {
    hide Answer, High;
    ExactAnswer(calls, j);
    var c := calls[j];
    assert Key(c, High(calls, j)) == c;
    if TakenBefore(calls, j, c) {
      var k :| 0 <= k < j && Answer(calls, k) && Key(calls[k], High(calls, k)) == c;
      assert calls[k] + WINDOW == c && Aliased(calls[k], High(calls, k));
    }
    if k :| 0 <= k < j && calls[k] + WINDOW == c && Answer(calls, k) && Aliased(calls[k], High(calls, k)) {
      assert Key(calls[k], High(calls, k)) == c;
    }
  }

  lemma StepValue(a: Marks, c: nat, high: nat, kept: set<nat>, key: nat)
    requires c < LIMIT && a.high <= c + WINDOW && high == Max(a.high, c)
    requires forall x :: x in kept <==> x in a.marked && Word(high) < Word(x) + WORDS
    requires key == if Aliased(c, high) then c + WINDOW else c
    ensures MarkStep(a, c) == (Marks(high, kept + {key}), key !in kept)
  {
    assert MarkStep(a, c).0.marked == kept + {key};
  }

  lemma AliasedSteps()
    ensures MarkStep(Marks(0, {}), 127) == (Marks(127, {127}), true)
    ensures MarkStep(Marks(127, {127}), 8256) == (Marks(8256, {8256}), true)
    ensures MarkStep(Marks(8256, {8256}), 127) == (Marks(8256, {8256, 8319}), true)
    ensures MarkStep(Marks(8256, {8256, 8319}), 8319).1 == false
  {
    hide MarkStep;
    assert {} + {127} == {127} && {} + {8256} == {8256} && {8256} + {8319} == {8256, 8319};
    StepValue(Marks(0, {}), 127, 127, {}, 127);
    StepValue(Marks(127, {127}), 8256, 8256, {}, 8256);
    StepValue(Marks(8256, {8256}), 127, 8256, {8256}, 8319);
    StepValue(Marks(8256, {8256, 8319}), 8319, 8319, {8256, 8319}, 8319);
  }

  /** The boundary is real: counter 127 is accepted twice, and then the fresh counter 8319 is rejected. */
  lemma AliasedReplay(calls: seq<nat>)
    requires calls == [127, 8256, 127, 8319]
    ensures Answer(calls, 0) && Answer(calls, 1) && Answer(calls, 2) && !Answer(calls, 3)
  {
    assert MarkRun(calls[..0]) == Marks(0, {});
    hide Answer, High, MarkRun, MarkStep;
    AliasedSteps();
    AnswerIsMark(calls, 0);
    MarkRunStep(calls, 0);
    assert MarkRun(calls[..1]) == Marks(127, {127});
    AnswerIsMark(calls, 1);
    MarkRunStep(calls, 1);
    assert MarkRun(calls[..2]) == Marks(8256, {8256});
    AnswerIsMark(calls, 2);
    MarkRunStep(calls, 2);
    AnswerIsMark(calls, 3);
  }
}
