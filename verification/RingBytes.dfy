/**
 The packet ring byte by byte (src/platform_switch.c): the producer stores the
 length and copies the bytes one after the other, and the reader does the same at
 the same time.  Positions are counted without end; module RelayRing has the
 sequence numbers that wrap.
 */
module RingBytes {
  import opened MachineInts
  import RelayRing

  const SLOTS: nat := RelayRing.SLOTS
  const DATA_MAX: nat := RelayRing.DATA_MAX

  type Packet = p: seq<byte> | |p| <= DATA_MAX witness []

  /** struct ring_slot */
  datatype Slot = Slot(len: nat, data: seq<byte>)

  /** wg_relay_input: between packets, or with k bytes of one copied */
  datatype Writer = Resting | Writing(p: Packet, k: nat)

  /** wg_socket_recv: outside, at a position, or with its bytes up to n being copied */
  datatype Reader = Away | Looking(i: nat) | Reading(i: nat, n: nat, buf: seq<byte>)

  /** `written` are the packets put in so far. */
  datatype State = State(
    slots: seq<Slot>, writer: Writer, reader: Reader, written: seq<Packet>, committed: nat, due: nat)

  datatype Step =
    | Begin(p: Packet)      // the length of a packet is stored
    | Copy                  // one of its bytes
    | Finish                // the private sequence number moves on
    | Commit                // wg_relay_commit
    | Look                  // the reader compares the sequence numbers and catches up
    | Length(room: nat)     // it reads the slot's length, for a buffer with so much room
    | Fetch                 // one byte
    | Done                  // it returns

  function Start(): State {
    State(seq(SLOTS, _ => Slot(0, seq(DATA_MAX, _ => 0))), Resting, Away, [], 0, 0)
  }

  /** The slot that the producer is at */
  function At(s: State): nat { |s.written| % SLOTS }

  predicate Enabled(s: State, step: Step) {
    match step
    case Begin(_) => s.writer.Resting? && |s.written| - s.committed < SLOTS - 4
    case Copy => s.writer.Writing? && s.writer.k < |s.writer.p|
    case Finish => s.writer.Writing? && s.writer.k == |s.writer.p|
    case Commit => s.writer.Resting?
    case Look => s.reader.Away? && s.due < s.committed
    case Length(_) => s.reader.Looking?
    case Fetch => s.reader.Reading? && |s.reader.buf| < s.reader.n
    case Done => s.reader.Reading? && |s.reader.buf| == s.reader.n
  }

  function Min(a: nat, b: nat): nat { if a <= b then a else b }

  predicate Shaped(s: State) {
    && |s.slots| == SLOTS && (forall j | 0 <= j < SLOTS :: |s.slots[j].data| == DATA_MAX && s.slots[j].len <= DATA_MAX)
    && (s.writer.Writing? ==> s.writer.k <= |s.writer.p|)
    && (s.reader.Reading? ==> |s.reader.buf| <= s.reader.n <= DATA_MAX)
    && s.committed <= |s.written|
  }

  function Next(s: State, step: Step): State
    requires Shaped(s) && Enabled(s, step)
  {
    match step
    case Begin(p) => s.(slots := s.slots[At(s) := s.slots[At(s)].(len := |p|)], writer := Writing(p, 0))
    case Copy =>
      var k := s.writer.k;
      var slot := s.slots[At(s)];
      s.(slots := s.slots[At(s) := slot.(data := slot.data[k := s.writer.p[k]])], writer := s.writer.(k := k + 1))
    case Finish => s.(written := s.written + [s.writer.p], writer := Resting)
    case Commit => s.(committed := |s.written|)
    case Look => s.(reader := Looking(if s.committed - s.due > SLOTS then s.committed - SLOTS + 1 else s.due))
    case Length(room) =>
      var len := s.slots[s.reader.i % SLOTS].len;
      if len == 0 then s.(reader := Away, due := s.reader.i + 1)
      else s.(reader := Reading(s.reader.i, Min(len, room), []))
    case Fetch =>
      s.(reader := s.reader.(buf := s.reader.buf + [s.slots[s.reader.i % SLOTS].data[|s.reader.buf|]]))
    case Done => s.(reader := Away, due := s.reader.i + 1)
  }

  // What the slots hold.

  /** Position j is one of the last 256, and the producer is not writing over it. */
  predicate Safe(s: State, j: nat) {
    j < |s.written| <= j + SLOTS && (s.writer.Writing? ==> |s.written| < j + SLOTS)
  }

  predicate Holds(slot: Slot, p: Packet) { slot.len == |p| && |p| <= |slot.data| && slot.data[..|p|] == p }

  predicate Inv(s: State) {
    && Shaped(s)
    && (forall j | 0 <= j < |s.written| && Safe(s, j) :: Holds(s.slots[j % SLOTS], s.written[j]))
    && (s.writer.Writing? ==>
          var slot := s.slots[At(s)]; slot.len == |s.writer.p| && slot.data[..s.writer.k] == s.writer.p[..s.writer.k])
  }

  lemma StartInv()
    ensures Inv(Start())
  {}

  /** A safe position is not in the producer's slot while it writes. */
  lemma Elsewhere(n: nat, j: nat)
    requires j < n < j + SLOTS
    ensures j % SLOTS != n % SLOTS
  {}

  lemma WriterInv(s: State, step: Step)
    requires Inv(s) && Enabled(s, step) && (step.Begin? || step.Copy? || step.Finish? || step.Commit?)
    ensures Inv(Next(s, step))
  {
    var t := Next(s, step);
    forall j | 0 <= j < |t.written| && Safe(t, j)
      ensures Holds(t.slots[j % SLOTS], t.written[j])
    {
      if j < |s.written| {
        assert Safe(s, j);
        if t.writer.Writing? { Elsewhere(|s.written|, j); }
      }
    }
  }

  lemma NextInv(s: State, step: Step)
    requires Inv(s) && Enabled(s, step)
    ensures Inv(Next(s, step))
  {
    if step.Begin? || step.Copy? || step.Finish? || step.Commit? {
      WriterInv(s, step);
    } else {
      assert forall j | 0 <= j < |s.written| && Safe(Next(s, step), j) :: Safe(s, j);
    }
  }

  // Runs.

  /** The states that some interleaving reaches */
  ghost predicate Reached(trace: seq<State>, steps: seq<Step>) {
    && |trace| == |steps| + 1 && trace[0] == Start()
    && forall n | 0 <= n < |steps| ::
      Shaped(trace[n]) && Enabled(trace[n], steps[n]) && trace[n + 1] == Next(trace[n], steps[n])
  }

  lemma {:induction false} ReachedInv(trace: seq<State>, steps: seq<Step>, n: nat)
    requires Reached(trace, steps) && n <= |steps|
    ensures Inv(trace[n])
  {
    hide Start, Inv, Next, Enabled;
    if n == 0 {
      StartInv();
    } else {
      ReachedInv(trace, steps, n - 1);
      NextInv(trace[n - 1], steps[n - 1]);
    }
  }

  /** The packets put in stay put in. */
  lemma WrittenGrows(s: State, step: Step)
    requires Shaped(s) && Enabled(s, step)
    ensures s.written <= Next(s, step).written
  {}

  /** The bytes that the reader has so far are those of the packet that it wants. */
  predicate Clean(s: State, i: nat, room: nat) {
    && i < |s.written| && s.reader.Reading? && s.reader.i == i && s.reader.n == Min(|s.written[i]|, room)
    && |s.reader.buf| <= s.reader.n && s.reader.buf == s.written[i][..|s.reader.buf|]
  }

  lemma LengthClean(s: State, room: nat)
    requires Inv(s) && Enabled(s, Length(room)) && Safe(s, s.reader.i) && s.written[s.reader.i] != []
    ensures Clean(Next(s, Length(room)), s.reader.i, room)
  {
    assert Holds(s.slots[s.reader.i % SLOTS], s.written[s.reader.i]);
  }

  lemma FetchClean(s: State, step: Step, i: nat, room: nat)
    requires Inv(s) && Enabled(s, step) && Clean(s, i, room) && Safe(s, i) && !step.Done?
    ensures Clean(Next(s, step), i, room)
  {
    WrittenGrows(s, step);
    if step.Fetch? {
      var k, p := |s.reader.buf|, s.written[i];
      assert Holds(s.slots[i % SLOTS], p);
      assert s.slots[i % SLOTS].data[k] == p[k];
      assert p[..k + 1] == p[..k] + [p[k]];
    }
  }

  /**
   A reader whose packet is safe at every step, from the reading of its length to
   the last byte, returns that packet, cut to the buffer, and no byte of another.
   */
  lemma {:induction false} Intact(trace: seq<State>, steps: seq<Step>, a: nat, b: nat, room: nat)
    requires Reached(trace, steps) && a < b <= |steps| && steps[a] == Length(room)
    requires forall t | a < t < b :: !steps[t].Done?
    requires var i := trace[a].reader.i; forall t | a <= t < b :: Safe(trace[t], i)
    requires trace[a].reader.i < |trace[a].written| && trace[a].written[trace[a].reader.i] != []
    ensures Clean(trace[b], trace[a].reader.i, room)
    decreases b
  {
    assert trace[a].reader.Looking?;
    hide Start, Inv, Next, Enabled, Clean, Safe;
    ReachedInv(trace, steps, b - 1);
    if b == a + 1 {
      LengthClean(trace[a], room);
    } else {
      Intact(trace, steps, a, b - 1, room);
      FetchClean(trace[b - 1], steps[b - 1], trace[a].reader.i, room);
    }
  }

  /**
   And where it is not safe, the next byte is another packet's: of the one that is
   being written over it, or of the last one that was put in its slot.
   */
  lemma Overtaken(s: State)
    requires Inv(s) && Enabled(s, Fetch) && s.reader.i < |s.written| && !Safe(s, s.reader.i)
    ensures var i, k, b := s.reader.i, |s.reader.buf|, Next(s, Fetch).reader.buf[|s.reader.buf|];
      if s.writer.Writing? && At(s) == i % SLOTS then k < s.writer.k ==> b == s.writer.p[k]
      else
        var h := RelayRing.Held(|s.written|, i);
        h > i && (k < |s.written[h]| ==> b == s.written[h][k])
  {
    var i, k := s.reader.i, |s.reader.buf|;
    if s.writer.Writing? && At(s) == i % SLOTS {
      if k < s.writer.k { assert s.slots[At(s)].data[..s.writer.k][k] == s.writer.p[..s.writer.k][k]; }
    } else {
      RelayRing.HeldRange(|s.written|, i);
      var h := RelayRing.Held(|s.written|, i);
      hide RelayRing.Held;
      assert Safe(s, h);
      assert Holds(s.slots[h % SLOTS], s.written[h]);
      if k < |s.written[h]| { assert s.slots[i % SLOTS].data[..|s.written[h]|][k] == s.written[h][k]; }
    }
  }

  // The lag that the guard allows is not safe.

  lemma Extend(trace: seq<State>, steps: seq<Step>, step: Step)
    returns (trace': seq<State>, steps': seq<Step>, s: State)
    requires Reached(trace, steps) && Inv(trace[|steps|]) && Enabled(trace[|steps|], step)
    ensures Reached(trace', steps') && |steps'| == |steps| + 1 && s == trace'[|steps'|] == Next(trace[|steps|], step)
    ensures Inv(s)
  {
    NextInv(trace[|steps|], step);
    hide Start, Next, Enabled;
    s := Next(trace[|steps|], step);
    trace', steps' := trace + [s], steps + [step];
  }

  const OLD: Packet := [0, 0]
  const NEW: Packet := [1, 1]

  /** k packets are in, all committed, and the reader has not looked yet. */
  predicate Full(s: State, k: nat) {
    && s.writer.Resting? && s.reader.Away? && s.due == 0 && |s.written| == s.committed == k
    && forall j | 0 <= j < k :: s.written[j] == OLD
  }

  lemma {:induction false} Fill(k: nat) returns (trace: seq<State>, steps: seq<Step>)
    ensures Reached(trace, steps) && Full(trace[|steps|], k)
  {
    if k == 0 {
      trace, steps := [Start()], [];
    } else {
      trace, steps := Fill(k - 1);
      trace, steps := FillOne(trace, steps, k - 1);
    }
  }

  lemma FillOne(trace: seq<State>, steps: seq<Step>, k: nat) returns (trace': seq<State>, steps': seq<Step>)
    requires Reached(trace, steps) && Full(trace[|steps|], k)
    ensures Reached(trace', steps') && Full(trace'[|steps'|], k + 1)
  {
    ReachedInv(trace, steps, |steps|);
    hide Reached, Inv, Shaped;
    var s;
    trace', steps', s := Store(trace, steps, OLD);
    hide Next;
    trace', steps' := Close(trace', steps');
  }

  /** The length and the two bytes of a packet */
  lemma Store(trace: seq<State>, steps: seq<Step>, p: Packet)
    returns (trace': seq<State>, steps': seq<Step>, s: State)
    requires Reached(trace, steps) && Inv(trace[|steps|]) && Enabled(trace[|steps|], Begin(p)) && |p| == 2
    ensures Reached(trace', steps') && s == trace'[|steps'|] && Inv(s) && s.writer == Writing(p, 2)
    ensures var t := trace[|steps|]; s == t.(slots := s.slots, writer := s.writer)
  {
    hide Reached, Inv, Shaped;
    trace', steps', s := Extend(trace, steps, Begin(p));
    trace', steps', s := Extend(trace', steps', Copy);
    trace', steps', s := Extend(trace', steps', Copy);
  }

  lemma Close(trace: seq<State>, steps: seq<Step>) returns (trace': seq<State>, steps': seq<Step>)
    requires Reached(trace, steps) && Inv(trace[|steps|]) && Enabled(trace[|steps|], Finish)
    ensures Reached(trace', steps')
    ensures var t, s := trace[|steps|], trace'[|steps'|];
      s == t.(writer := Resting, written := t.written + [t.writer.p], committed := |t.written| + 1)
  {
    hide Reached, Inv, Shaped;
    var s;
    trace', steps', s := Extend(trace, steps, Finish);
    trace', steps', s := Extend(trace', steps', Commit);
  }

  /** The reader has one byte of the first packet, and 256 are ahead. */
  lemma HalfRead() returns (trace: seq<State>, steps: seq<Step>, s: State)
    ensures Reached(trace, steps) && s == trace[|steps|] && Inv(s) && s.reader == Reading(0, 2, [0])
    ensures s.writer.Resting? && |s.written| == s.committed == SLOTS && forall j | 0 <= j < SLOTS :: s.written[j] == OLD
  {
    trace, steps := Fill(SLOTS);
    ReachedInv(trace, steps, |steps|);
    s := trace[|steps|];
    FirstHeld(s);
    hide Reached, Inv, Shaped, Holds;
    trace, steps, s := Extend(trace, steps, Look);
    trace, steps, s := Extend(trace, steps, Length(2));
    trace, steps, s := Extend(trace, steps, Fetch);
  }

  lemma FirstHeld(s: State)
    requires Inv(s) && Full(s, SLOTS)
    ensures s.slots[0].len == 2 && s.slots[0].data[0] == 0
  {
    assert Safe(s, 0) && s.written[0] == OLD;
    assert Holds(s.slots[0 % SLOTS], s.written[0]);
    assert s.slots[0].data[..2][0] == 0;
  }

  /** With 256 packets ahead a reader can return bytes of two packets, one of which is not even committed. */
  lemma Torn() returns (trace: seq<State>, steps: seq<Step>)
    ensures Reached(trace, steps)
    ensures var s := trace[|steps|];
      && Enabled(s, Done) && s.reader.buf == [0, 1] && |s.written| == s.committed == SLOTS
      && forall j | 0 <= j < SLOTS :: s.written[j] == OLD
  {
    var s;
    trace, steps, s := HalfRead();
    hide Reached, Shaped;
    trace, steps, s := Store(trace, steps, NEW);
    SecondByte(s);
    hide Inv;
    trace, steps, s := Extend(trace, steps, Fetch);
  }

  lemma SecondByte(s: State)
    requires Inv(s) && s.writer == Writing(NEW, 2) && |s.written| == SLOTS
    ensures s.slots[0].data[1] == 1
  {
    assert s.slots[0].data[..2][1] == 1;
  }
}
