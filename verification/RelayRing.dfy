/**
 The packet ring between the relay's producer and the receive thread
 (src/platform_switch.c): a private and a published write sequence, and a reader
 that catches up when it falls behind.  The three sequence numbers have 32 bits
 and wrap; the packets themselves are numbered from zero without end.
 */
module RelayRing {
  import opened MachineInts
  import opened Options

  const SLOTS: nat := 256
  const DATA_MAX: nat := 2044

  type Packet = seq<byte>

  /**
   The ring and its sequence numbers.  `written` are the packets put in so far,
   `committed` the number of those that are published, `due` the number of the
   packet that the reader wants, and `picked` those that it has returned.
   */
  datatype State = State(
    slots: seq<Packet>, writeLocal: nat, write: nat, read: nat,
    written: seq<Packet>, committed: nat, due: nat, picked: seq<nat>)

  function Start(): State { State(seq(SLOTS, _ => []), 0, 0, 0, [], 0, 0, []) }

  /** wg_relay_input goes ahead when fewer than SLOTS - 4 packets are uncommitted. */
  predicate MayInput(s: State, p: Packet) {
    |p| <= DATA_MAX && (s.writeLocal - s.write) % TWO_32 < SLOTS - 4
  }

  function AfterInput(s: State, p: Packet): State
    requires |s.slots| == SLOTS
  {
    s.(slots := s.slots[s.writeLocal % SLOTS := p], writeLocal := (s.writeLocal + 1) % TWO_32,
      written := s.written + [p])
  }

  /** wg_relay_commit */
  function AfterCommit(s: State): State { s.(write := s.writeLocal, committed := |s.written|) }

  /** Where the reader goes on: one slot short of a full ring behind, if it has fallen further back */
  function CaughtUp(s: State): (i: nat)
    requires s.read < s.write < TWO_32
    ensures s.read <= i < s.write <= i + SLOTS
  {
    if s.write - s.read > SLOTS then s.write - SLOTS + 1 else s.read
  }

  /** The position of the packet that a slot holds after n packets: the last of those that share the slot */
  function Held(n: nat, i: nat): (r: nat)
    requires i < n
    ensures i <= r < n
  {
    i + (n - 1 - i) / SLOTS * SLOTS
  }

  /** The sequence numbers are the counts modulo 2^32, and every slot holds the last packet put into it. */
  predicate Inv(s: State) {
    && Counts(s)
    && |s.slots| == SLOTS
    && forall i | 0 <= i < |s.written| :: s.slots[i % SLOTS] == s.written[Held(|s.written|, i)]
  }

  predicate Counts(s: State) {
    && s.writeLocal == |s.written| % TWO_32 && s.write == s.committed % TWO_32 && s.read == s.due % TWO_32
    && s.due <= s.committed <= |s.written| <= s.committed + SLOTS - 4
  }

  /** The number of the packet whose place the reader looks at */
  function Sought(s: State): (i: nat)
    requires Counts(s) && s.read < s.write
    ensures i < s.committed <= i + SLOTS && i % SLOTS == CaughtUp(s) % SLOTS
  {
    SameSlot(s.committed, s.write, CaughtUp(s));
    s.committed - (s.write - CaughtUp(s))
  }

  lemma SameSlot(n: nat, w: nat, i: nat)
    requires w == n % TWO_32 && i <= w
    ensures n >= w && (n - (w - i)) % SLOTS == i % SLOTS
  {
    var k := n / TWO_32;
    assert n == TWO_32*k + w;
    assert n - (w - i) == SLOTS*(0x100_0000*k) + i;
    Multiple(SLOTS*(0x100_0000*k) + i, 0x100_0000*k, i);
  }

  lemma Multiple(n: nat, k: nat, i: nat)
    requires n == SLOTS*k + i
    ensures n % SLOTS == i % SLOTS
  {}

  /** One turn of the loop in wg_socket_recv: the packet it returns, cut to the caller's buffer, or none */
  function Polled(s: State, length: nat): Option<Packet>
    requires Inv(s)
  {
    if s.read >= s.write then None
    else
      var p := s.slots[CaughtUp(s) % SLOTS];
      if p == [] then None else Some(if |p| < length then p else p[..length])
  }

  function AfterPoll(s: State): State
    requires Inv(s)
  {
    if s.read >= s.write then s
    else
      var i := Sought(s);
      s.(read := CaughtUp(s) + 1, due := i + 1,
         picked := if s.slots[CaughtUp(s) % SLOTS] == [] then s.picked else s.picked + [Held(|s.written|, i)])
  }

  // The invariant.

  lemma StartInv()
    ensures Inv(Start())
  {}

  lemma HeldRange(n: nat, i: nat)
    requires i < n
    ensures i <= Held(n, i) < n && n - Held(n, i) <= SLOTS && Held(n, i) % SLOTS == i % SLOTS
    ensures Held(n, i) == i <==> n - i <= SLOTS
  {}

  lemma HeldNext(n: nat, i: nat)
    requires i < n
    ensures Held(n + 1, i) == if i % SLOTS == n % SLOTS then n else Held(n, i)
  {
    HeldRange(n, i);
    HeldRange(n + 1, i);
    var a, b := Held(n, i), Held(n + 1, i);
    if a != b { Apart(a, b, n); }
  }

  lemma Apart(a: nat, b: nat, n: nat)
    requires a % SLOTS == b % SLOTS && a < n && b < n + 1 && n - a <= SLOTS && n + 1 - b <= SLOTS && a != b
    ensures b == n && a % SLOTS == n % SLOTS
  {}

  lemma NextSequence(n: nat)
    ensures (n % TWO_32 + 1) % TWO_32 == (n + 1) % TWO_32
  {}

  lemma Difference(n: nat, m: nat)
    requires m <= n < m + TWO_32
    ensures (n % TWO_32 - m % TWO_32) % TWO_32 == n - m
  {
    var k, j := n / TWO_32, m / TWO_32;
    assert n == TWO_32*k + n % TWO_32 && m == TWO_32*j + m % TWO_32;
    assert k == j || k == j + 1;
  }

  /** The guard of wg_relay_input counts the uncommitted packets, also across a wrap. */
  lemma GuardMeans(s: State, p: Packet)
    requires Counts(s)
    ensures MayInput(s, p) <==> |p| <= DATA_MAX && |s.written| - s.committed < SLOTS - 4
  {
    Difference(|s.written|, s.committed);
  }

  lemma InputInv(s: State, p: Packet)
    requires Inv(s) && MayInput(s, p)
    ensures Inv(AfterInput(s, p))
  {
    GuardMeans(s, p);
    InputSlots(s, p);
    NextSequence(|s.written|);
  }

  lemma InputSlots(s: State, p: Packet)
    requires Inv(s)
    ensures var t := AfterInput(s, p);
      forall i | 0 <= i < |t.written| :: t.slots[i % SLOTS] == t.written[Held(|t.written|, i)]
  {
    hide Held, Counts;
    var t := AfterInput(s, p);
    var n := |s.written|;
    assert s.writeLocal % SLOTS == n % SLOTS by { WriteSlot(s); }
    forall i | 0 <= i < |t.written|
      ensures t.slots[i % SLOTS] == t.written[Held(|t.written|, i)]
    {
      HeldRange(n + 1, i);
      if i < n {
        HeldRange(n, i);
        HeldNext(n, i);
      }
    }
  }

  lemma WriteSlot(s: State)
    requires Counts(s)
    ensures s.writeLocal % SLOTS == |s.written| % SLOTS
  {
    SameSlot(|s.written|, s.writeLocal, s.writeLocal);
  }

  lemma PollInv(s: State)
    requires Inv(s)
    ensures Inv(AfterPoll(s))
  {
    hide Held, Sought, CaughtUp;
    if s.read < s.write { SoughtNext(s); }
  }

  lemma SoughtNext(s: State)
    requires Counts(s) && s.read < s.write
    ensures (Sought(s) + 1) % TWO_32 == CaughtUp(s) + 1
  {
    var i := CaughtUp(s);
    var k := s.committed / TWO_32;
    assert s.committed == TWO_32*k + s.write;
    Residue(Sought(s) + 1, k, i + 1);
  }

  lemma Residue(n: nat, k: nat, r: nat)
    requires n == TWO_32*k + r && r < TWO_32
    ensures n % TWO_32 == r && n / TWO_32 == k
  {}

  // What one poll takes.

  /** How far the producer is ahead of the reader, uncommitted packets included */
  function Lag(s: State): int { |s.written| - s.due }

  /** Close behind, the reader looks at the place of the packet that is due. */
  lemma SoughtIsDue(s: State)
    requires Counts(s) && s.read < s.write && s.committed - s.due <= SLOTS
    ensures Sought(s) == s.due && CaughtUp(s) == s.read && s.write - s.read <= SLOTS
  {
    var k, j := s.committed / TWO_32, s.due / TWO_32;
    assert s.committed == TWO_32*k + s.write && s.due == TWO_32*j + s.read;
    assert k == j;
  }

  /**
   A turn that finds something takes the packet that is due exactly when the
   producer is at most a full ring ahead.
   */
  lemma PollExact(s: State)
    requires Counts(s) && s.read < s.write
    ensures Held(|s.written|, Sought(s)) == s.due <==> Lag(s) <= SLOTS
  {
    HeldRange(|s.written|, Sought(s));
    hide Held, Sought;
    if Lag(s) <= SLOTS { SoughtIsDue(s); }
  }

  lemma PollTakes(s: State, length: nat)
    requires Inv(s) && s.read < s.write && Lag(s) <= SLOTS
    ensures var p := s.written[s.due];
      && Polled(s, length) == (if p == [] then None else Some(if |p| < length then p else p[..length]))
      && AfterPoll(s)
      == s.(read := s.read + 1, due := s.due + 1, picked := if p == [] then s.picked else s.picked + [s.due])
  {
    PollExact(s);
    hide Held;
    SoughtIsDue(s);
    assert s.slots[s.due % SLOTS] == s.written[Held(|s.written|, s.due)];
  }

  /** A packet is due and the turn finds nothing, exactly when the published sequence has wrapped since. */
  lemma StallsIff(s: State)
    requires Inv(s) && s.due < s.committed < s.due + TWO_32
    ensures AfterPoll(s) == s <==> s.due / TWO_32 < s.committed / TWO_32
  {
    hide Held;
    var k, j := s.committed / TWO_32, s.due / TWO_32;
    assert s.committed == TWO_32*k + s.write && s.due == TWO_32*j + s.read;
    assert k == j || k == j + 1;
  }

  // Runs.

  datatype Step = Input(p: Packet) | Commit | Poll

  predicate Enabled(s: State, step: Step) {
    match step
    case Input(p) => MayInput(s, p)
    case _ => true
  }

  function Next(s: State, step: Step): State
    requires Inv(s)
  {
    match step
    case Input(p) => AfterInput(s, p)
    case Commit => AfterCommit(s)
    case Poll => AfterPoll(s)
  }

  /** The states along a run of any length */
  ghost predicate Trace(trace: seq<State>, steps: seq<Step>) {
    && |trace| == |steps| + 1 && trace[0] == Start()
    && forall n | 0 <= n < |steps| ::
      Inv(trace[n]) && Enabled(trace[n], steps[n]) && trace[n + 1] == Next(trace[n], steps[n])
  }

  lemma NextInv(s: State, step: Step)
    requires Inv(s) && Enabled(s, step)
    ensures Inv(Next(s, step))
  {
    hide Held;
    match step
    case Input(p) => InputInv(s, p);
    case Commit =>
    case Poll => PollInv(s);
  }

  /** The positions of the nonempty packets before n, in order */
  function Due(written: seq<Packet>, n: nat): seq<nat>
    requires n <= |written|
  {
    if n == 0 then []
    else if written[n - 1] == [] then Due(written, n - 1)
    else Due(written, n - 1) + [n - 1]
  }

  lemma {:induction false} DueGrown(written: seq<Packet>, p: Packet, n: nat)
    requires n <= |written|
    ensures Due(written + [p], n) == Due(written, n)
  {
    if n > 0 { DueGrown(written, p, n - 1); }
  }

  /** A reader that is never lapped returns exactly the nonempty packets before the one due, in order, once each. */
  lemma {:induction false} Lossless(trace: seq<State>, steps: seq<Step>, n: nat)
    requires Trace(trace, steps) && n <= |steps|
    requires forall m | 0 <= m < n && steps[m].Poll? :: Lag(trace[m]) <= SLOTS
    ensures Inv(trace[n]) && trace[n].due <= trace[n].committed
    ensures trace[n].picked == Due(trace[n].written, trace[n].due)
  {
    hide Held, Start;
    if n == 0 {
      StartDue();
    } else {
      Lossless(trace, steps, n - 1);
      NextInv(trace[n - 1], steps[n - 1]);
      NextDue(trace[n - 1], steps[n - 1]);
    }
  }

  lemma StartDue()
    ensures Inv(Start()) && Start().picked == Due(Start().written, Start().due)
  {}

  lemma NextDue(s: State, step: Step)
    requires Inv(s) && Enabled(s, step) && s.picked == Due(s.written, s.due)
    requires step.Poll? ==> Lag(s) <= SLOTS
    ensures Inv(Next(s, step)) && Next(s, step).picked == Due(Next(s, step).written, Next(s, step).due)
  {
    NextInv(s, step);
    hide Held;
    match step
    case Input(p) => DueGrown(s.written, p, s.due);
    case Commit =>
    case Poll => if s.read < s.write { PollTakes(s, 0); }
  }

  // The reader's own sequence number never wraps.

  lemma ReadGrows(s: State, step: Step)
    requires Inv(s) && Enabled(s, step)
    ensures var t := Next(s, step);
      && s.read <= t.read < TWO_32 && s.picked <= t.picked && |t.picked| - |s.picked| <= t.read - s.read
  {
    hide Held;
  }

  /** However long the run and however many packets are put in, the reader returns fewer than 2^32 of them. */
  lemma {:induction false} Finite(trace: seq<State>, steps: seq<Step>, n: nat)
    requires Trace(trace, steps) && n <= |steps|
    ensures |trace[n].picked| <= trace[n].read < TWO_32
  {
    hide Held, Inv, Next, Enabled;
    if n > 0 {
      Finite(trace, steps, n - 1);
      ReadGrows(trace[n - 1], steps[n - 1]);
    }
  }

  /** A reader that has come to the last sequence number returns nothing any more. */
  lemma {:induction false} Deaf(trace: seq<State>, steps: seq<Step>, m: nat, n: nat)
    requires Trace(trace, steps) && m <= n <= |steps| && trace[m].read == TWO_32 - 1
    ensures trace[n].read == TWO_32 - 1 && trace[n].picked == trace[m].picked
  {
    hide Held, Inv, Next, Enabled;
    if m < n {
      Deaf(trace, steps, m, n - 1);
      ReadGrows(trace[n - 1], steps[n - 1]);
    }
  }

  /** One packet put in and committed */
  function Put(s: State): (t: State)
    requires Inv(s) && |s.written| == s.committed
    ensures Inv(t) && |t.written| == t.committed == s.committed + 1 && t.due == s.due
  {
    GuardMeans(s, [0]);
    InputInv(s, [0]);
    AfterCommit(AfterInput(s, [0]))
  }

  /** k packets, each committed and polled at once */
  function InStep(k: nat): (s: State)
    ensures Inv(s) && |s.written| == s.committed == k
  {
    if k == 0 then StartInv(); Start()
    else
      var t := Put(InStep(k - 1));
      PollInv(t);
      AfterPoll(t)
  }

  lemma InStepNone()
    ensures InStep(0).due == 0
  {}

  lemma InStepNext(k: nat)
    requires k > 0
    ensures InStep(k) == AfterPoll(Put(InStep(k - 1)))
  {}

  /** The most diligent reader gets the first 2^32 - 1 packets and none of those after them. */
  lemma {:induction false} InStepReads(k: nat)
    ensures InStep(k).due == if k < TWO_32 then k else TWO_32 - 1
  {
    hide Inv, Put, AfterPoll, Start, InStep;
    if k == 0 {
      InStepNone();
    } else {
      InStepReads(k - 1);
      InStepNext(k);
      var t := Put(InStep(k - 1));
      if k < TWO_32 { TurnTakes(t); } else { TurnStalls(t); }
    }
  }

  lemma TurnTakes(s: State)
    requires Inv(s) && |s.written| == s.committed == s.due + 1 < TWO_32
    ensures AfterPoll(s).due == s.due + 1
  {
    hide Held;
    Residue(s.committed, 0, s.committed);
    Residue(s.due, 0, s.due);
    PollTakes(s, 0);
  }

  lemma TurnStalls(s: State)
    requires Inv(s) && s.due == TWO_32 - 1
    ensures AfterPoll(s) == s
  {
    hide Held;
    Residue(s.due, 0, s.due);
  }

  // The guard of wg_relay_input does not keep the producer from lapping the reader.

  /** k packets, each committed at once, and no poll */
  function Filled(k: nat): (s: State)
    ensures Inv(s) && |s.written| == s.committed == k && s.due == 0
  {
    if k == 0 then StartInv(); Start() else Put(Filled(k - 1))
  }

  /** However far behind the reader is, the producer is let in; once 257 packets are ahead the first one is lost. */
  lemma Lapped(k: nat)
    requires SLOTS < k < TWO_32
    ensures var s := Filled(k); MayInput(s, [0]) && s.read < s.write && AfterPoll(s).due == k - SLOTS + 2
  {
    hide Held, Filled;
    var s := Filled(k);
    GuardMeans(s, [0]);
  }

  // Nor does the commit keep a lapped reader from packets that are not committed.

  /**
   A turn that finds something returns a packet that has not been committed exactly
   when at least two are uncommitted and the reader has to catch up, or when it has
   not but the uncommitted packets have gone round to its slot.
   */
  lemma Uncommitted(s: State)
    requires Counts(s) && s.read < s.write
    ensures Held(|s.written|, Sought(s)) >= s.committed <==>
      if s.write - s.read > SLOTS then |s.written| - s.committed >= 2 else |s.written| - Sought(s) > SLOTS
  {
    HeldRange(|s.written|, Sought(s));
  }

  /** k packets put in after state s, and no commit */
  function Ahead(s: State, k: nat): (t: State)
    requires Inv(s) && |s.written| - s.committed + k <= SLOTS - 4
    ensures Inv(t) && |t.written| == |s.written| + k && t.committed == s.committed && t.due == s.due
  {
    if k == 0 then s
    else
      var t := Ahead(s, k - 1);
      GuardMeans(t, [0]);
      InputInv(t, [0]);
      AfterInput(t, [0])
  }

  predicate TakesUncommitted(s: State)
    requires Inv(s)
  {
    s.read < s.write && Held(|s.written|, Sought(s)) >= s.committed
  }

  /**
   The guard lets this happen: with all packets committed and none lost, u more are
   let in one by one, until together they are more than a ring.
   */
  lemma UncommittedTaken(s: State, u: nat)
    requires Inv(s) && |s.written| == s.committed && s.read < s.write && s.committed - s.due <= SLOTS
    requires u <= SLOTS - 4 && s.committed - s.due + u > SLOTS
    ensures forall k | 0 <= k < u :: MayInput(Ahead(s, k), [0])
    ensures TakesUncommitted(Ahead(s, u))
  {
    hide Held, Ahead, MayInput, Sought, CaughtUp, Inv, Counts;
    InvCounts(s);
    forall k | 0 <= k < u
      ensures MayInput(Ahead(s, k), [0])
    {
      InvCounts(Ahead(s, k));
      GuardMeans(Ahead(s, k), [0]);
    }
    var t := Ahead(s, u);
    InvCounts(t);
    SameSequences(s, t);
    SoughtIsDue(t);
    Uncommitted(t);
  }

  lemma InvCounts(s: State)
    requires Inv(s)
    ensures Counts(s) && |s.slots| == SLOTS && s.due <= s.committed <= |s.written|
  {}

  lemma SameSequences(s: State, t: State)
    requires Counts(s) && Counts(t) && s.committed == t.committed && s.due == t.due
    ensures s.read == t.read && s.write == t.write
  {}

  // The code.

  function AfterPolls(s: State, k: nat): (t: State)
    requires Inv(s)
    ensures Inv(t)
  {
    if k == 0 then s
    else
      var t := AfterPolls(s, k - 1);
      PollInv(t);
      AfterPoll(t)
  }

  lemma TurnRange(s: State)
    requires Inv(s) && s.read < s.write
    ensures s.write < TWO_32 && |s.slots| == SLOTS && Counts(s) && (CaughtUp(s) + 1) % TWO_32 == CaughtUp(s) + 1
    ensures Sought(s) < |s.written|
  {
    hide Held, Sought;
  }

  class Ring {
    const slots: array<Packet>
    var writeLocal: nat
    var write: nat
    var read: nat
    ghost var written: seq<Packet>
    ghost var committed: nat
    ghost var due: nat
    ghost var picked: seq<nat>

    ghost function View(): State
      reads this, slots
    {
      State(slots[..], writeLocal, write, read, written, committed, due, picked)
    }

    constructor ()
      ensures fresh(slots) && View() == Start()
    {
      slots := new Packet[SLOTS](_ => []);
      writeLocal, write, read, written, committed, due, picked := 0, 0, 0, [], 0, 0, [];
      new;
      assert slots[..] == seq(SLOTS, _ => []);
    }

    /** wg_relay_input; false when the packet is too long or the producer has to wait */
    method Input(p: Packet) returns (ok: bool)
      requires slots.Length == SLOTS
      modifies this`writeLocal, this`written, slots
      ensures ok == MayInput(old(View()), p)
      ensures View() == if ok then AfterInput(old(View()), p) else old(View())
    {
      if |p| > DATA_MAX { return false; }
      if (writeLocal - write) % TWO_32 >= SLOTS - 4 { return false; }
      slots[writeLocal % SLOTS] := p;
      writeLocal, written := (writeLocal + 1) % TWO_32, written + [p];
      ok := true;
    }

    /** wg_relay_commit */
    method Commit()
      modifies this`write, this`committed
      ensures View() == AfterCommit(old(View()))
    {
      write := writeLocal;
      committed := |written|;
    }

    /** The relay branch of wg_socket_recv, with the turns that its deadline allows */
    method Recv(length: nat, turns: nat) returns (r: Option<Packet>, ghost k: nat)
      requires Inv(View())
      modifies this`read, this`due, this`picked
      ensures k <= turns && View() == AfterPolls(old(View()), k)
      ensures r.Some? ==> k > 0 && r == Polled(AfterPolls(old(View()), k - 1), length)
      ensures r.None? ==> k == turns && forall j | 0 <= j < k :: Polled(AfterPolls(old(View()), j), length).None?
    {
      hide Held, Inv, AfterPoll, Polled;
      k, r := 0, None;
      var t := 0;
      while t < turns
        invariant r.None? && t == k <= turns && View() == AfterPolls(old(View()), k)
        invariant forall j | 0 <= j < k :: Polled(AfterPolls(old(View()), j), length).None?
      {
        r := Turn(length);
        k, t := k + 1, t + 1;
        if r.Some? { return; }
      }
    }

    /** Its sums and differences wrap like those of uint32_t. */
    method CatchUp() returns (i: nat)
      requires read < write < TWO_32
      ensures i == CaughtUp(View())
    {
      i := if (write - read) % TWO_32 > SLOTS then (write - SLOTS + 1) % TWO_32 else read;
    }

    method Turn(length: nat) returns (r: Option<Packet>)
      requires Inv(View())
      modifies this`read, this`due, this`picked
      ensures View() == AfterPoll(old(View())) && r == Polled(old(View()), length)
    {
      ghost var s := View();
      if read >= write { return None; }
      TurnRange(s);
      ghost var i := Sought(s);
      hide Held, CaughtUp, Sought, Inv, Counts;
      read := CatchUp();
      var p := slots[read % SLOTS];
      read, due := (read + 1) % TWO_32, i + 1;
      if |p| == 0 { return None; }
      picked := picked + [Held(|written|, i)];
      assert p[..|p|] == p;
      r := Some(p[..if |p| < length then |p| else length]);
    }
  }
}
