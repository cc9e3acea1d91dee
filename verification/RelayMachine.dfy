/**
 The receive slots and the wake-up of the relay as an interleaving of the
 receive thread, the relay loop, lwIP and the thread that stops the relay.

 A step is what a thread does in one critical section or one system call.  lwIP
 is an environment that keeps a buffer as long as it likes and frees it once.
 */
module RelayMachine {

  const POOL_SIZE: nat := 256
  const HOLDERS: nat := 128
  const MAX_PER_ITERATION: nat := 16

  /** The receive thread between two system calls or locks */
  datatype Hand =
    | Idle                         // no slot in hand
    | Holding(slot: nat)           // acquired from the pool
    | Entered(slot: nat)           // in handleIncomingPacket, past its test of running_
    | Waking                       // has pushed onto an empty queue and has yet to call signalWake

  /** Where the relay loop is */
  datatype Loop = Building | Blocked | Draining | Taking | Delivering | Exited

  /** Running, or how far stop() has come; it may be called again, and the relay may be started again */
  datatype Stop = Up | Down | Signalled | Drained

  /**
   `bytes` is what the wake socket holds; `more` is the loop's flag for a rest in
   the queue.  `pushed` records the slots that entered the queue, and `handed`
   those that left it for good, delivered or drained, in order.
   */
  datatype State = State(
    free: seq<nat>, hand: Hand, queue: seq<nat>, batch: seq<nat>, holders: seq<int>,
    loop: Loop, more: bool, bytes: nat, stop: Stop,
    pushed: seq<nat>, handed: seq<nat>)

  const EMPTY: int := -1

  /** The free list that wg_recv_pool_init builds: each slot goes in front of the ones before it. */
  function Stack(n: nat): seq<nat> {
    if n == 0 then [] else [n - 1] + Stack(n - 1)
  }

  function Start(): State {
    State(Stack(POOL_SIZE), Idle, [], [], seq(HOLDERS, _ => EMPTY), Building, false, 0, Up, [], [])
  }

  datatype Step =
    | Acquire                         // wg_recv_pool_acquire
    | Drop                            // every path of the receive thread that gives its slot back
    | Enter                           // handleIncomingPacket sees running_
    | Push                            // its critical section
    | Wake(full: bool)                // its signalWake; a full socket takes no byte
    | OtherWake                       // signalWake from elsewhere
    | Build                           // the loop enters poll
    | Return                          // poll returns
    | Read(n: nat)                    // one read from the wake socket
    | Take                            // the critical section of processIncomingQueue
    | Deliver(refused: bool)          // one packet of the batch to lwIP; `refused` when no pbuf is to be had
    | Rearm(full: bool)               // the end of processIncomingQueue
    | Free(holder: nat)               // lwIP frees a buffer
    | Lower                           // stop() clears running_
    | Signal(full: bool)              // stop() signals
    | Drain                           // stop() has joined the loop, if there is one, and empties the queue
    | Restart                         // start(): new wake sockets and a new loop

  /** The first holder that is not in use */
  function FirstFree(holders: seq<int>): (j: nat)
    ensures j <= |holders| && (forall i | 0 <= i < j :: holders[i] != EMPTY) && (j < |holders| ==> holders[j] == EMPTY)
  {
    if holders == [] || holders[0] == EMPTY then 0 else 1 + FirstFree(holders[1..])
  }

  predicate Running(s: State) { s.stop.Up? }

  /** When a step can happen */
  predicate Enabled(s: State, step: Step) {
    match step
    case Acquire => s.hand.Idle? && s.free != []
    case Drop => s.hand.Holding?
    case Enter => s.hand.Holding? && Running(s)
    case Push => s.hand.Entered?
    case Wake(full) => s.hand.Waking? && (full ==> s.bytes > 0)
    case OtherWake => true
    case Build => s.loop.Building?
    case Return => s.loop.Blocked?
    case Read(n) => s.loop.Draining? && n <= s.bytes
    case Take => s.loop.Taking?
    case Deliver(_) => s.loop.Delivering? && s.batch != []
    case Rearm(full) => s.loop.Delivering? && s.batch == [] && (full ==> s.bytes > 0)
    case Free(j) => j < |s.holders| && s.holders[j] >= 0
    case Lower => s.stop.Up? || s.stop.Drained?
    case Signal(full) => s.stop.Down? && (full ==> s.bytes > 0)
    case Drain => s.stop.Signalled? && s.loop.Exited?
    case Restart => s.stop.Drained?
  }

  function Written(bytes: nat, full: bool): nat { if full then bytes else bytes + 1 }

  function Min(a: nat, b: nat): nat { if a <= b then a else b }

  /** Free list and holders after one packet: into the first free holder, or straight back to the pool */
  function Placed(free: seq<nat>, holders: seq<int>, slot: nat, refused: bool): (seq<nat>, seq<int>) {
    var j := FirstFree(holders);
    if j == |holders| || refused then ([slot] + free, holders) else (free, holders[j := slot])
  }

  function Delivered(s: State, refused: bool): State
    requires s.batch != []
  {
    var (free, holders) := Placed(s.free, s.holders, s.batch[0], refused);
    s.(batch := s.batch[1..], handed := s.handed + [s.batch[0]], free := free, holders := holders)
  }

  function Next(s: State, step: Step): State
    requires Enabled(s, step)
  {
    match step
    case Acquire => s.(hand := Holding(s.free[0]), free := s.free[1..])
    case Drop => s.(hand := Idle, free := [s.hand.slot] + s.free)
    case Enter => s.(hand := Entered(s.hand.slot))
    case Push =>
      s.(hand := if s.queue == [] then Waking else Idle, queue := s.queue + [s.hand.slot],
        pushed := s.pushed + [s.hand.slot])
    case Wake(full) => s.(hand := Idle, bytes := Written(s.bytes, full))
    case OtherWake => s.(bytes := s.bytes + 1)
    case Build => if Running(s) then s.(loop := Blocked) else s.(loop := Exited)
    case Return => s.(loop := if !Running(s) then Exited else if s.bytes > 0 then Draining else Taking)
    case Read(n) => if n == 0 then s.(loop := if s.bytes == 0 then Taking else Draining) else s.(bytes := s.bytes - n)
    case Take =>
      var n := Min(|s.queue|, MAX_PER_ITERATION);
      s.(batch := s.queue[..n], queue := s.queue[n..], more := |s.queue| > n, loop := Delivering)
    case Deliver(refused) => Delivered(s, refused)
    case Rearm(full) => s.(loop := Building, bytes := if s.more then Written(s.bytes, full) else s.bytes)
    case Free(j) => s.(holders := s.holders[j := EMPTY], free := [s.holders[j]] + s.free)
    case Lower => s.(stop := Down)
    case Signal(full) => s.(stop := Signalled, bytes := Written(s.bytes, full))
    case Drain => s.(stop := Drained, queue := [], free := Reversed(s.queue) + s.free, handed := s.handed + s.queue)
    case Restart => s.(stop := Up, loop := Building, bytes := 0)
  }

  function Reversed(q: seq<nat>): seq<nat> {
    if q == [] then [] else Reversed(q[1..]) + [q[0]]
  }

  // Conservation: every slot is in exactly one place.

  /** How often a slot occurs in a list */
  function Times(q: seq<int>, slot: nat): nat {
    if q == [] then 0 else (if q[0] == slot then 1 else 0) + Times(q[1..], slot)
  }

  function InHand(h: Hand, slot: nat): nat {
    if (h.Holding? || h.Entered?) && h.slot == slot then 1 else 0
  }

  /** In how many places a slot is: the free list, the receive thread's hand, the queue, the batch, the holders */
  function Places(s: State, slot: nat): nat {
    Times(s.free, slot) + InHand(s.hand, slot) + Times(s.queue, slot) + Times(s.batch, slot) + Times(s.holders, slot)
  }

  lemma {:induction false} TimesConcat(p: seq<int>, q: seq<int>, slot: nat)
    ensures Times(p + q, slot) == Times(p, slot) + Times(q, slot)
  {
    if p == [] {
      assert p + q == q;
    } else {
      assert (p + q)[1..] == p[1..] + q;
      TimesConcat(p[1..], q, slot);
    }
  }

  lemma TimesSplit(q: seq<int>, n: nat, slot: nat)
    requires n <= |q|
    ensures Times(q, slot) == Times(q[..n], slot) + Times(q[n..], slot)
  {
    assert q == q[..n] + q[n..];
    TimesConcat(q[..n], q[n..], slot);
  }

  lemma TimesPush(x: int, q: seq<int>, slot: nat)
    ensures Times([x] + q, slot) == (if x == slot then 1 else 0) + Times(q, slot)
  {
    assert ([x] + q)[1..] == q;
  }

  lemma TimesAppend(q: seq<int>, x: int, slot: nat)
    ensures Times(q + [x], slot) == Times(q, slot) + (if x == slot then 1 else 0)
  {
    TimesConcat(q, [x], slot);
  }

  lemma {:induction false} TimesUpdate(q: seq<int>, j: nat, x: int, slot: nat)
    requires j < |q|
    ensures Times(q[j := x], slot) + (if q[j] == slot then 1 else 0) == Times(q, slot) + (if x == slot then 1 else 0)
  {
    if j > 0 {
      TimesUpdate(q[1..], j - 1, x, slot);
      assert q[j := x][1..] == q[1..][j - 1 := x];
    } else {
      assert q[j := x][1..] == q[1..];
    }
  }

  lemma {:induction false} TimesReversed(q: seq<nat>, slot: nat)
    ensures Times(Reversed(q), slot) == Times(q, slot)
  {
    if q != [] {
      TimesReversed(q[1..], slot);
      TimesAppend(Reversed(q[1..]), q[0], slot);
    }
  }

  lemma {:induction false} TimesStack(n: nat, slot: nat)
    ensures Times(Stack(n), slot) == if slot < n then 1 else 0
  {
    if n > 0 {
      TimesPush(n - 1, Stack(n - 1), slot);
      TimesStack(n - 1, slot);
    }
  }

  lemma {:induction false} TimesEmpty(n: nat, slot: nat)
    ensures Times(seq(n, _ => EMPTY), slot) == 0
  {
    if n > 0 {
      var q := seq(n, _ => EMPTY);
      assert q[1..] == seq(n - 1, _ => EMPTY);
      TimesEmpty(n - 1, slot);
    }
  }

  /** What the control flow alone keeps */
  predicate Shape(s: State) {
    && |s.holders| == HOLDERS
    && (s.batch != [] ==> s.loop.Delivering?)
    && (s.loop.Exited? ==> !Running(s))
    && (s.stop.Drained? ==> s.loop.Exited?)
  }

  lemma DeliveredKeeps(s: State, refused: bool, slot: nat)
    requires s.batch != []
    ensures Places(Delivered(s, refused), slot) == Places(s, slot)
  {
    hide FirstFree;
    var x, j := s.batch[0], FirstFree(s.holders);
    TimesPush(x, s.free, slot);
    if j < |s.holders| { TimesUpdate(s.holders, j, x, slot); }
  }

  lemma TakeKeeps(s: State, slot: nat)
    requires s.loop.Taking?
    ensures Times(s.queue, slot) == Times(Next(s, Take).queue, slot) + Times(Next(s, Take).batch, slot)
  {
    TimesSplit(s.queue, Min(|s.queue|, MAX_PER_ITERATION), slot);
  }

  lemma FreeKeeps(s: State, j: nat, slot: nat)
    requires j < |s.holders| && s.holders[j] >= 0
    ensures Times([s.holders[j]] + s.free, slot) + Times(s.holders[j := EMPTY], slot)
         == Times(s.free, slot) + Times(s.holders, slot)
  {
    TimesPush(s.holders[j], s.free, slot);
    TimesUpdate(s.holders, j, EMPTY, slot);
  }

  lemma DrainKeeps(s: State, slot: nat)
    ensures Times(Reversed(s.queue) + s.free, slot) == Times(s.queue, slot) + Times(s.free, slot)
  {
    TimesConcat(Reversed(s.queue), s.free, slot);
    TimesReversed(s.queue, slot);
  }

  /** No step creates, copies or loses a slot. */
  lemma NextKeeps(s: State, step: Step, slot: nat)
    requires Enabled(s, step) && Shape(s)
    ensures Places(Next(s, step), slot) == Places(s, slot)
  {
    hide Delivered, Reversed;
    match step
    case Drop => TimesPush(s.hand.slot, s.free, slot);
    case Push => TimesAppend(s.queue, s.hand.slot, slot);
    case Take => TakeKeeps(s, slot);
    case Deliver(refused) => DeliveredKeeps(s, refused, slot);
    case Free(j) => FreeKeeps(s, j, slot);
    case Drain => DrainKeeps(s, slot);
    case _ =>
  }

  lemma NextShape(s: State, step: Step)
    requires Enabled(s, step) && Shape(s)
    ensures Shape(Next(s, step))
  {
    hide Reversed, FirstFree;
  }

  // Wake-ups.

  /** Something will make poll return at once: a byte is there, or the receive thread is about to write one. */
  predicate Roused(s: State) { s.bytes > 0 || s.hand.Waking? }

  /** The queue is not left waiting: outside its own critical path the loop is roused, or will re-arm itself. */
  predicate WakeInv(s: State) {
    s.queue != [] ==>
      match s.loop
      case Building => Roused(s)
      case Blocked => Roused(s)
      case Delivering => Roused(s) || s.more
      case _ => true
  }

  /** Only a start can break it, with a queue that is not empty and no wake-up on its way. */
  lemma NextWake(s: State, step: Step)
    requires Enabled(s, step) && Shape(s) && WakeInv(s) && (step.Restart? ==> s.queue == [] || s.hand.Waking?)
    ensures WakeInv(Next(s, step))
  {
    hide Reversed, FirstFree;
  }

  /** And taking from the queue mends it. */
  lemma TakeMends(s: State)
    requires Enabled(s, Take)
    ensures WakeInv(Next(s, Take))
  {}

  // Order.

  /** What entered the queue has left it in the same order: delivered or drained, in the batch, or still queued. */
  predicate InOrder(s: State) {
    s.pushed == s.handed + s.batch + s.queue
  }

  lemma PushInOrder(s: State)
    requires Enabled(s, Push) && InOrder(s)
    ensures InOrder(Next(s, Push))
  {
    assert s.handed + s.batch + (s.queue + [s.hand.slot]) == s.handed + s.batch + s.queue + [s.hand.slot];
  }

  lemma TakeInOrder(s: State)
    requires Enabled(s, Take) && Shape(s) && InOrder(s)
    ensures InOrder(Next(s, Take))
  {
    var n := Min(|s.queue|, MAX_PER_ITERATION);
    assert s.handed + s.batch + s.queue == s.handed + s.queue[..n] + s.queue[n..];
  }

  lemma DeliverInOrder(s: State, refused: bool)
    requires Enabled(s, Deliver(refused)) && InOrder(s)
    ensures InOrder(Next(s, Deliver(refused)))
  {
    hide FirstFree;
    assert (s.handed + [s.batch[0]]) + s.batch[1..] == s.handed + s.batch;
  }

  lemma NextInOrder(s: State, step: Step)
    requires Enabled(s, step) && Shape(s) && InOrder(s)
    ensures InOrder(Next(s, step))
  {
    match step
    case Push => PushInOrder(s);
    case Take => TakeInOrder(s);
    case Deliver(refused) => DeliverInOrder(s, refused);
    case Drain => assert s.handed + s.batch + s.queue == (s.handed + s.queue) + s.batch + [];
    case _ => hide Delivered, Reversed;
  }

  // Runs.

  ghost predicate Inv(s: State) {
    && Shape(s) && InOrder(s)
    && forall slot: nat :: Places(s, slot) == if slot < POOL_SIZE then 1 else 0
  }

  lemma StartInv()
    ensures Inv(Start())
  {
    hide Stack, Times;
    forall slot: nat
      ensures Places(Start(), slot) == if slot < POOL_SIZE then 1 else 0
    {
      TimesStack(POOL_SIZE, slot);
      TimesEmpty(HOLDERS, slot);
      NoneThere(slot);
    }
  }

  lemma NoneThere(slot: nat)
    ensures Times([], slot) == 0
  {}

  lemma NextInv(s: State, step: Step)
    requires Inv(s) && Enabled(s, step)
    ensures Inv(Next(s, step))
  {
    hide Next, Enabled, Places, Shape, InOrder;
    NextShape(s, step);
    NextInOrder(s, step);
    forall slot: nat
      ensures Places(Next(s, step), slot) == if slot < POOL_SIZE then 1 else 0
    {
      NextKeeps(s, step, slot);
    }
  }

  /** The states that some interleaving reaches */
  ghost predicate Reached(trace: seq<State>, steps: seq<Step>) {
    && |trace| == |steps| + 1 && trace[0] == Start()
    && forall n | 0 <= n < |steps| :: Enabled(trace[n], steps[n]) && trace[n + 1] == Next(trace[n], steps[n])
  }

  lemma {:induction false} ReachedInv(trace: seq<State>, steps: seq<Step>, n: nat)
    requires Reached(trace, steps) && n <= |steps|
    ensures Inv(trace[n])
  {
    hide Start, Inv, Next, Enabled;
    if n == 0 {
      StartInv();
    } else {
      ReachedInv(trace, steps, n - 1);
      NextInv(trace[n - 1], steps[n - 1]);
    }
  }

  /** In every interleaving, every slot is in exactly one place. */
  lemma OnePlace(trace: seq<State>, steps: seq<Step>, n: nat, slot: nat)
    requires Reached(trace, steps) && n <= |steps|
    ensures Places(trace[n], slot) == if slot < POOL_SIZE then 1 else 0
  {
    hide Start, Next, Enabled;
    ReachedInv(trace, steps, n);
  }

  /**
   The relay was started with a queue that was not empty while the receive thread
   was not about to wake the loop, and the loop has not taken from it since.
   */
  ghost predicate StartedAsleep(trace: seq<State>, steps: seq<Step>, n: nat)
    requires |trace| == |steps| + 1 && n <= |steps|
  {
    exists m | 0 <= m < n ::
      && steps[m].Restart? && trace[m].queue != [] && !trace[m].hand.Waking?
      && forall k | m < k < n :: !steps[k].Take?
  }

  lemma {:induction false} WakeKept(trace: seq<State>, steps: seq<Step>, n: nat)
    requires Reached(trace, steps) && n <= |steps|
    ensures WakeInv(trace[n]) || StartedAsleep(trace, steps, n)
  {
    hide Start, Next, Enabled, Inv, WakeInv;
    if n == 0 {
      StartWake();
    } else {
      WakeKept(trace, steps, n - 1);
      ReachedInv(trace, steps, n - 1);
      InvShape(trace[n - 1]);
      var step := steps[n - 1];
      if step.Take? {
        TakeMends(trace[n - 1]);
      } else if step.Restart? && trace[n - 1].queue != [] && !trace[n - 1].hand.Waking? {
        assert StartedAsleep(trace, steps, n);
      } else if StartedAsleep(trace, steps, n - 1) {
        var m :| 0 <= m < n - 1 && steps[m].Restart? && trace[m].queue != [] && !trace[m].hand.Waking?
          && forall k | m < k < n - 1 :: !steps[k].Take?;
        assert forall k | m < k < n :: !steps[k].Take?;
      } else {
        NextWake(trace[n - 1], step);
      }
    }
  }

  lemma StartWake()
    ensures WakeInv(Start())
  {
    hide Stack;
  }

  /**
   No lost wake-up: in every interleaving, a loop blocked in poll with packets in
   the queue has a byte to read or is about to get one, unless it has slept there
   since a start that StartSleeps describes.
   */
  lemma NoLostWake(trace: seq<State>, steps: seq<Step>, n: nat)
    requires Reached(trace, steps) && n <= |steps|
    ensures trace[n].loop.Blocked? && trace[n].queue != [] ==>
      trace[n].bytes > 0 || trace[n].hand.Waking? || StartedAsleep(trace, steps, n)
  {
    hide Start, Next, Enabled;
    WakeKept(trace, steps, n);
  }

  /**
   Exactly when a start leaves the new loop asleep beside a packet: the queue is
   not empty and the receive thread is not about to wake it.  Then it sleeps until
   poll times out.
   */
  lemma StartSleeps(s: State)
    requires Enabled(s, Restart)
    ensures Enabled(Next(s, Restart), Build)
    ensures var t := Next(Next(s, Restart), Build);
      && t.loop.Blocked? && t.queue == s.queue
      && (t.queue != [] && !Roused(t) <==> s.queue != [] && !s.hand.Waking?)
      && (Enabled(t, Return) && Next(t, Return).loop.Taking?)
  {}

  /** Packets leave the queue in arrival order. */
  lemma Fifo(trace: seq<State>, steps: seq<Step>, n: nat)
    requires Reached(trace, steps) && n <= |steps|
    ensures trace[n].handed <= trace[n].pushed
  {
    hide Start, Next, Enabled;
    ReachedInv(trace, steps, n);
  }

  // All slots come home.

  predicate AllEmpty(holders: seq<int>) { forall j | 0 <= j < |holders| :: holders[j] == EMPTY }

  lemma {:induction false} TimesNone(q: seq<int>, slot: nat)
    requires AllEmpty(q)
    ensures Times(q, slot) == 0
  {
    if q != [] { TimesNone(q[1..], slot); }
  }

  lemma {:induction false} Somewhere(q: seq<int>, slot: nat) returns (j: nat)
    requires Times(q, slot) > 0
    ensures j < |q| && q[j] == slot
  {
    if q[0] == slot {
      j := 0;
    } else {
      j := Somewhere(q[1..], slot);
      j := j + 1;
    }
  }

  /** A list with each of n slots once has length n. */
  lemma {:induction false} Pigeonhole(q: seq<nat>, n: nat)
    requires forall slot: nat :: Times(q, slot) == if slot < n then 1 else 0
    ensures |q| == n
    decreases n
  {
    if n == 0 {
      if q != [] { assert Times(q, q[0]) > 0; }
    } else {
      var j := Somewhere(q, n - 1);
      var rest := q[..j] + q[j + 1..];
      forall slot: nat
        ensures Times(rest, slot) == if slot < n - 1 then 1 else 0
      {
        TimesConcat(q[..j], q[j + 1..], slot);
        TimesSplit(q, j, slot);
        assert q[j..][1..] == q[j + 1..];
      }
      Pigeonhole(rest, n - 1);
    }
  }

  /** Once the queue is drained and lwIP has released its buffers, all 256 slots are free, each once. */
  lemma AllFree(trace: seq<State>, steps: seq<Step>, n: nat)
    requires Reached(trace, steps) && n <= |steps|
    requires trace[n].queue == [] && trace[n].batch == [] && AllEmpty(trace[n].holders)
    requires !trace[n].hand.Holding? && !trace[n].hand.Entered?
    ensures |trace[n].free| == POOL_SIZE
    ensures forall slot | 0 <= slot < POOL_SIZE :: Times(trace[n].free, slot) == 1
  {
    hide Start, Next, Enabled;
    var s := trace[n];
    forall slot: nat
      ensures Times(s.free, slot) == if slot < POOL_SIZE then 1 else 0
    {
      OnePlace(trace, steps, n, slot);
      TimesNone(s.holders, slot);
    }
    Pigeonhole(s.free, POOL_SIZE);
  }

  // stop() against a receive thread that is already past the test of running_.

  lemma InvShape(s: State)
    requires Inv(s)
    ensures Shape(s)
  {}

  /** Once stop() has drained the queue and nobody is inside handleIncomingPacket, only a restart lets a slot in. */
  predicate Quiescent(s: State) { !Running(s) && s.loop.Exited? && s.queue == [] && !s.hand.Entered? }

  lemma QuiescentStep(s: State, step: Step)
    requires Enabled(s, step) && Quiescent(s) && Shape(s) && !step.Restart?
    ensures Quiescent(Next(s, step))
  {
    hide Delivered, Reversed;
  }

  lemma {:induction false} StaysQuiescent(trace: seq<State>, steps: seq<Step>, m: nat, n: nat)
    requires Reached(trace, steps) && m <= n <= |steps| && Quiescent(trace[m])
    requires forall k | m <= k < n :: !steps[k].Restart?
    ensures Quiescent(trace[n])
  {
    hide Start, Next, Enabled, Inv, Shape, Quiescent;
    if m < n {
      StaysQuiescent(trace, steps, m, n - 1);
      ReachedInv(trace, steps, n - 1);
      InvShape(trace[n - 1]);
      QuiescentStep(trace[n - 1], steps[n - 1]);
    }
  }

  /**
   After stop() has drained the queue, it stays empty until the relay is started
   again exactly when the receive thread was not inside handleIncomingPacket at
   that moment: otherwise that thread's push is enabled.
   */
  lemma StopStrands(trace: seq<State>, steps: seq<Step>, m: nat)
    requires Reached(trace, steps) && m < |steps| && steps[m] == Drain
    ensures !trace[m].hand.Entered? ==>
      forall n | m < n <= |steps| && (forall k | m < k < n :: !steps[k].Restart?) :: trace[n].queue == []
    ensures trace[m].hand.Entered? ==>
      Enabled(trace[m + 1], Push) && Next(trace[m + 1], Push).queue == [trace[m].hand.slot]
  {
    hide Start, Reversed, Delivered;
    if !trace[m].hand.Entered? {
      forall n | m < n <= |steps| && (forall k | m < k < n :: !steps[k].Restart?)
        ensures trace[n].queue == []
      {
        StaysQuiescent(trace, steps, m + 1, n);
      }
    }
  }

  predicate Front(s: State, slot: nat) { s.queue != [] && s.queue[0] == slot }

  lemma FrontStep(s: State, step: Step, slot: nat)
    requires Enabled(s, step) && Front(s, slot) && !step.Drain? && !step.Take?
    ensures Front(Next(s, step), slot)
  {
    hide FirstFree, Reversed;
  }

  lemma {:induction false} FrontStays(trace: seq<State>, steps: seq<Step>, m: nat, n: nat, slot: nat)
    requires Reached(trace, steps) && m <= n <= |steps| && Front(trace[m], slot)
    requires forall k | m <= k < n :: !steps[k].Drain? && !steps[k].Take?
    ensures Front(trace[n], slot)
  {
    hide Start, Next, Enabled, Front;
    if m < n {
      FrontStays(trace, steps, m, n - 1, slot);
      FrontStep(trace[n - 1], steps[n - 1], slot);
    }
  }

  lemma {:induction false} Appears(q: seq<int>, slot: nat)
    requires slot in q
    ensures Times(q, slot) > 0
  {
    if q[0] != slot { Appears(q[1..], slot); }
  }

  lemma TakeRemoves(s: State, slot: nat)
    requires Enabled(s, Take) && Front(s, slot) && Places(s, slot) <= 1
    ensures slot !in Next(s, Take).queue
  {
    var k := Min(|s.queue|, MAX_PER_ITERATION);
    TimesSplit(s.queue[1..], k - 1, slot);
    assert s.queue[1..][k - 1..] == s.queue[k..];
    if slot in s.queue[k..] { Appears(s.queue[k..], slot); }
  }

  lemma DrainRemoves(s: State)
    requires Enabled(s, Drain)
    ensures Next(s, Drain).queue == []
  {
    hide Reversed;
  }

  /** A slot at the front of the queue stays there exactly until the next drain or take. */
  lemma StrandedUntil(trace: seq<State>, steps: seq<Step>, m: nat, n: nat, slot: nat)
    requires Reached(trace, steps) && m <= n < |steps| && Front(trace[m], slot)
    requires forall k | m <= k < n :: !steps[k].Drain? && !steps[k].Take?
    ensures Front(trace[n], slot)
    ensures slot in trace[n + 1].queue <==> !steps[n].Drain? && !steps[n].Take?
  {
    FrontStays(trace, steps, m, n, slot);
    OnePlace(trace, steps, n, slot);
    hide Start, Next, Enabled, Places;
    if steps[n].Take? {
      TakeRemoves(trace[n], slot);
    } else if steps[n].Drain? {
      DrainRemoves(trace[n]);
    } else {
      FrontStep(trace[n], steps[n], slot);
    }
  }

  lemma Extend(trace: seq<State>, steps: seq<Step>, step: Step)
    returns (trace': seq<State>, steps': seq<Step>, s: State)
    requires Reached(trace, steps) && Enabled(trace[|steps|], step)
    ensures Reached(trace', steps') && |steps'| == |steps| + 1 && trace <= trace' && steps <= steps'
    ensures steps'[|steps|] == step && s == trace'[|steps'|] == Next(trace[|steps|], step)
  {
    hide Start, Next, Enabled;
    s := Next(trace[|steps|], step);
    trace', steps' := trace + [s], steps + [step];
  }

  lemma StackHead(n: nat)
    ensures n > 0 ==> Stack(n) != []
  {}

  lemma Begin() returns (trace: seq<State>, steps: seq<Step>, s: State)
    ensures Reached(trace, steps) && |steps| == 0 && s == trace[0]
    ensures s.free != [] && s.queue == [] && s.hand.Idle? && s.loop.Building? && s.stop.Up?
  {
    hide Stack;
    s := Start();
    StackHead(POOL_SIZE);
    trace, steps := [s], [];
  }

  lemma EnteredAtDrain() returns (trace: seq<State>, steps: seq<Step>, s: State)
    ensures Reached(trace, steps) && |steps| == 5 && trace[5] == s
    ensures s.hand.Entered? && s.stop.Signalled? && s.loop.Exited?
  {
    trace, steps, s := Begin();
    hide Reached, Delivered, Reversed;
    trace, steps, s := Extend(trace, steps, Acquire);
    trace, steps, s := Extend(trace, steps, Enter);
    trace, steps, s := Extend(trace, steps, Lower);
    trace, steps, s := Extend(trace, steps, Signal(false));
    trace, steps, s := Extend(trace, steps, Build);
  }

  /** Such an interleaving exists: a slot stays in the queue of a stopped relay. */
  lemma Stranded() returns (trace: seq<State>, steps: seq<Step>)
    ensures Reached(trace, steps) && |steps| == 7 && steps[5] == Drain && trace[5].hand.Entered?
    ensures trace[7].stop.Drained? && |trace[7].queue| == 1 && trace[7].hand.Waking?
  {
    hide Start, Delivered, Reversed;
    var s;
    trace, steps, s := EnteredAtDrain();
    trace, steps, s := Extend(trace, steps, Drain);
    assert steps[5] == Drain && trace[5].hand.Entered?;
    trace, steps, s := Extend(trace, steps, Push);
  }

  /** And when the relay is started again, its loop sleeps beside that slot. */
  lemma Oversleeps() returns (trace: seq<State>, steps: seq<Step>)
    ensures Reached(trace, steps) && |steps| == 10 && steps[8] == Restart
    ensures trace[10].loop.Blocked? && trace[10].queue != [] && trace[10].bytes == 0 && !trace[10].hand.Waking?
  {
    var s;
    trace, steps := Stranded();
    s := trace[7];
    hide Reached, Start, Delivered, Reversed;
    trace, steps, s := Extend(trace, steps, Wake(false));
    StartSleeps(s);
    hide Next, Enabled;
    trace, steps, s := Extend(trace, steps, Restart);
    assert steps[8] == Restart;
    trace, steps, s := Extend(trace, steps, Build);
  }

  // One packet, and one batch.

  /**
   A packet gets to lwIP exactly if it has a buffer for it and some holder is unused; then it takes
   the first such holder and no slot becomes free.  Otherwise its slot is free again.
   */
  lemma Handing(s: State, refused: bool)
    requires Enabled(s, Deliver(refused)) && s.batch[0] !in s.holders
    ensures var slot, t := s.batch[0], Next(s, Deliver(refused));
      && (slot in t.holders <==> EMPTY in s.holders && !refused)
      && (if slot in t.holders then
            && t.free == s.free
            && exists j :: 0 <= j < |s.holders| && s.holders[j] == EMPTY && t.holders == s.holders[j := slot]
                           && forall i | 0 <= i < j :: s.holders[i] != EMPTY
          else t.holders == s.holders && t.free == [slot] + s.free)
  {
    var j := FirstFree(s.holders);
    if j < |s.holders| {
      assert s.holders[j] == EMPTY;
      assert s.holders[j := s.batch[0]][j] == s.batch[0];
    }
  }

  /** The loop takes at most sixteen packets and leaves some only if it takes sixteen; then it wakes itself again. */
  lemma Batch(s: State)
    requires Enabled(s, Take)
    ensures var t := Next(s, Take);
      && t.batch + t.queue == s.queue && |t.batch| <= 16 && (t.queue != [] <==> |t.batch| == 16 && t.more)
      && (t.more ==> Enabled(t.(batch := []), Rearm(false)) && Next(t.(batch := []), Rearm(false)).bytes == t.bytes + 1)
  {}
}
