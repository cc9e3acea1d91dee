/**
 The code behind the steps of module RelayMachine: the linked free list of
 src/wireguard.c and the queue and holders of the lwIP relay.  Each method of the
 relay takes the state `s` of the machine that the object shows, and is proved to
 end in an object that shows the state after the steps the method is.
 */
module Relay {
  import opened RelayMachine

  /** WgRecvPool: a slot is its position in the allocation, and `next` links the free ones. */
  class RecvPool {
    const next: array<int>
    var freeHead: int
    ghost var free: seq<nat>

    ghost predicate Valid()
      reads this, next
    {
      && next.Length == POOL_SIZE
      && freeHead == Link(free, 0)
      && (forall i | 0 <= i < |free| :: free[i] < POOL_SIZE && next[free[i]] == Link(free, i + 1))
      && (forall i, j | 0 <= i < j < |free| :: free[i] != free[j])
    }

    /** wg_recv_pool_init: all slots are free. */
    constructor ()
      ensures Valid() && fresh(next) && free == Stack(POOL_SIZE)
    {
      hide Stack;
      next := new int[POOL_SIZE](_ => EMPTY);
      freeHead, free := EMPTY, [];
      new;
      Fill();
    }

    /** Its loop: each slot goes in front of the list. */
    method Fill()
      requires Valid() && free == []
      modifies this, next
      ensures Valid() && free == Stack(POOL_SIZE)
    {
      hide Stack, Valid;
      StackZero();
      var i := 0;
      while i < POOL_SIZE
        invariant i <= POOL_SIZE && Valid() && free == Stack(i)
        invariant forall k | 0 <= k < |free| :: free[k] < i
      {
        StackStep(i);
        Release(i);
        i := i + 1;
      }
    }

    /** wg_recv_pool_acquire: the head of the list, or none */
    method Acquire() returns (slot: int)
      requires Valid()
      modifies this, next
      ensures Valid()
      ensures old(free) == [] ==> slot == EMPTY && free == []
      ensures old(free) != [] ==> [slot] + free == old(free) && 0 <= slot < POOL_SIZE && slot !in free
    {
      slot := freeHead;
      if slot != EMPTY {
        freeHead, free := next[slot], free[1..];
        next[slot] := EMPTY;
      }
    }

    /** wg_recv_pool_release, by the one who has the slot */
    method Release(slot: nat)
      requires Valid() && slot < POOL_SIZE && slot !in free
      modifies this, next
      ensures Valid() && free == [slot] + old(free)
    {
      next[slot] := freeHead;
      freeHead, free := slot, [slot] + free;
    }
  }

  /** The i-th slot of a list, or EMPTY past its end */
  function Link(free: seq<nat>, i: nat): int {
    if i < |free| then free[i] else EMPTY
  }

  lemma StackZero()
    ensures Stack(0) == []
  {}

  lemma StackStep(n: nat)
    ensures Stack(n + 1) == [n] + Stack(n)
  {}

  /** All different, all slots of the pool, none of them free: what OnePlace says of slots outside the free list */
  ghost predicate Apart(slots: seq<nat>, free: seq<nat>) {
    && (forall i | 0 <= i < |slots| :: slots[i] < POOL_SIZE && slots[i] !in free)
    && (forall i, j | 0 <= i < j < |slots| :: slots[i] != slots[j])
  }

  /** What the receive thread finds in one turn, in the order in which it looks */
  datatype Event =
    | Failed          // the socket timed out or failed
    | Short           // shorter than a transport header and a tag
    | Handshake       // a handshake message, a cookie or an unknown type
    | NoSession       // no session has the index
    | Expired         // the session is too old
    | Keepalive       // no payload
    | Forged          // decryption fails
    | Replayed        // the replay window rejects the counter
    | Payload         // a packet for the consumer

  /** The machine after n packets of the batch */
  function DeliveredAll(s: State, refused: nat -> bool, n: nat): (t: State)
    requires n <= |s.batch|
    ensures t.batch == s.batch[n..] && t.loop == s.loop && t.queue == s.queue && t.stop == s.stop
  {
    if n == 0 then s else Delivered(DeliveredAll(s, refused, n - 1), refused(n - 1))
  }

  /** The machine after a turn of the receive thread: the slot is kept for the consumer, or given back */
  function Turn(s: State, kept: bool): State
    requires s.hand.Idle?
  {
    if s.free == [] then s
    else
      var held := Next(s, Acquire);
      if kept && Running(s) then Next(Next(held, Enter), Push) else Next(held, Drop)
  }

  /** In every reachable state the slots of the queue, the batch and the holders are what the methods below ask for. */
  lemma InvApart(s: State)
    requires Inv(s)
    ensures Apart(s.queue, s.free) && Apart(s.batch, s.free)
    ensures forall j | 0 <= j < |s.holders| && s.holders[j] >= 0 ::
      s.holders[j] < POOL_SIZE && s.holders[j] !in s.free
  {
    hide Shape, InOrder;
    assert Apart(s.queue, s.free) by { OnceApart(s, s.queue); }
    assert Apart(s.batch, s.free) by { OnceApart(s, s.batch); }
    forall j | 0 <= j < |s.holders| && s.holders[j] >= 0
      ensures s.holders[j] < POOL_SIZE && s.holders[j] !in s.free
    {
      var slot: nat := s.holders[j];
      assert Places(s, slot) == if slot < POOL_SIZE then 1 else 0;
      Appears(s.holders, slot);
      if slot in s.free { Appears(s.free, slot); }
    }
  }

  lemma OnceApart(s: State, slots: seq<nat>)
    requires Inv(s) && (slots == s.queue || slots == s.batch)
    ensures Apart(slots, s.free)
  {
    hide Shape, InOrder, Times;
    forall i | 0 <= i < |slots|
      ensures slots[i] < POOL_SIZE && slots[i] !in s.free
    {
      var slot := slots[i];
      assert Places(s, slot) == if slot < POOL_SIZE then 1 else 0;
      Appears(slots, slot);
      if slot in s.free { Appears(s.free, slot); }
    }
    forall i, j | 0 <= i < j < |slots|
      ensures slots[i] != slots[j]
    {
      var slot := slots[j];
      assert Places(s, slot) <= 1;
      TimesSplit(slots, j, slot);
      assert slot == slots[j..][0];
      Appears(slots[j..], slot);
      if slots[i] == slot {
        assert slot == slots[..j][i];
        Appears(slots[..j], slot);
      }
    }
  }

  /** LwipRelay, as far as slots pass through it */
  class LwipRelay {
    const pool: RecvPool
    const holders: array<int>
    var incomingQueue: seq<nat>
    var running: bool

    ghost predicate Valid()
      reads this, pool, pool.next, holders
    {
      pool.Valid() && holders.Length == HOLDERS && holders != pool.next
    }

    /** The object is what the machine says of the free list, the queue, the holders and running_. */
    ghost predicate Shows(s: State)
      reads this, pool, holders
    {
      pool.free == s.free && incomingQueue == s.queue && holders[..] == s.holders && running == Running(s)
    }

    /** The constructor and the first start() */
    constructor (p: RecvPool)
      requires p.Valid() && p.free == Stack(POOL_SIZE)
      ensures Valid() && pool == p && fresh(holders) && Shows(RelayMachine.Start())
    {
      hide Stack;
      pool := p;
      holders := new int[HOLDERS](_ => EMPTY);
      incomingQueue, running := [], true;
      new;
      assert holders[..] == seq(HOLDERS, _ => EMPTY);
    }

    /** start(): refused while the relay runs; otherwise the step Restart, which keeps queue and holders */
    method Start(ghost s: State) returns (ok: bool)
      requires Valid() && Shows(s) && (running || s.stop.Drained?)
      modifies this`running
      ensures Valid() && ok != old(running)
      ensures Shows(if ok then Next(s, Restart) else s)
    {
      if running { return false; }
      running := true;
      return true;
    }

    /** stop() clears running_: the step Lower */
    method Lower(ghost s: State)
      requires Valid() && Shows(s) && Enabled(s, RelayMachine.Lower)
      modifies this`running
      ensures Valid() && Shows(Next(s, RelayMachine.Lower))
    {
      running := false;
    }

    /** handleIncomingPacket: whether the slot is retained, and whether to signal */
    method HandleIncomingPacket(slot: nat, ghost s: State) returns (retained: bool, signal: bool)
      requires Shows(s) && s.hand == Holding(slot)
      modifies this`incomingQueue
      ensures retained == running
      ensures retained ==> Shows(Next(Next(s, Enter), Push)) && signal == Next(Next(s, Enter), Push).hand.Waking?
      ensures !retained ==> Shows(s) && !signal
    {
      if !running { return false, false; }
      signal := Enqueue(slot, Next(s, Enter));
      return true, signal;
    }

    /** Its critical section: the step Push */
    method Enqueue(slot: nat, ghost s: State) returns (wasEmpty: bool)
      requires Shows(s) && s.hand == Entered(slot)
      modifies this`incomingQueue
      ensures Shows(Next(s, Push)) && wasEmpty == Next(s, Push).hand.Waking?
    {
      wasEmpty := incomingQueue == [];
      incomingQueue := incomingQueue + [slot];
    }

    /**
     One turn of recv_thread_func: whatever happens to the packet, the slot it was
     read into goes back to the pool once, or into the queue and nowhere else.
     */
    method ReceiveTurn(event: Event, callback: bool, ghost s: State) returns (signal: bool)
      requires Valid() && Shows(s) && s.hand.Idle?
      modifies this`incomingQueue, pool, pool.next
      ensures Valid() && Shows(Turn(s, event.Payload? && callback))
      ensures signal == Turn(s, event.Payload? && callback).hand.Waking?
    {
      signal := false;
      var slot := pool.Acquire();
      match event {
        case Failed => if slot != EMPTY { pool.Release(slot); }
        case Short => if slot != EMPTY { pool.Release(slot); }
        case Handshake => if slot != EMPTY { pool.Release(slot); }
        case NoSession => if slot != EMPTY { pool.Release(slot); }
        case Expired => if slot != EMPTY { pool.Release(slot); }
        case Keepalive => if slot != EMPTY { pool.Release(slot); }
        case Forged => if slot != EMPTY { pool.Release(slot); }
        case Replayed => if slot != EMPTY { pool.Release(slot); }
        case Payload =>
          if callback && slot != EMPTY {
            var retained;
            retained, signal := HandleIncomingPacket(slot, Next(s, Acquire));
            if !retained { pool.Release(slot); }
          } else if slot != EMPTY {
            pool.Release(slot);
          }
      }
    }

    /** processIncomingQueue: the step Take, a Deliver for each packet of the batch, and a signal for the rest */
    method ProcessIncomingQueue(refused: nat -> bool, ghost s: State) returns (signal: bool)
      requires Valid() && Shows(s) && s.loop.Taking? && Apart(s.queue, s.free)
      modifies this`incomingQueue, pool, pool.next, holders
      ensures Valid()
      ensures var t := Next(s, Take); Shows(DeliveredAll(t, refused, |t.batch|)) && signal == t.more
    {
      hide Valid, DeliveredAll;
      var batch;
      batch, signal := TakeBatch(s);
      DeliverAll(batch, refused, Next(s, Take));
    }

    method DeliverAll(batch: seq<nat>, refused: nat -> bool, ghost s: State)
      requires Valid() && Shows(s) && s.batch == batch && Apart(batch, s.free)
      modifies pool, pool.next, holders
      ensures Valid() && Shows(DeliveredAll(s, refused, |batch|))
    {
      hide Valid, Delivered;
      for i := 0 to |batch|
        invariant Valid() && Shows(DeliveredAll(s, refused, i))
        invariant Apart(batch[i..], pool.free)
      {
        ghost var t := DeliveredAll(s, refused, i);
        DeliverOne(batch[i], refused(i), t);
        PlacedApart(batch[i..], t.free, pool.free);
        assert batch[i..][1..] == batch[i + 1..];
      }
    }

    /** The critical section of processIncomingQueue: the step Take */
    method TakeBatch(ghost s: State) returns (batch: seq<nat>, more: bool)
      requires Valid() && Shows(s) && s.loop.Taking?
      modifies this`incomingQueue
      ensures Valid() && Shows(Next(s, Take)) && batch == Next(s, Take).batch && more == Next(s, Take).more
    {
      var n := Min(|incomingQueue|, MAX_PER_ITERATION);
      batch := [];
      ghost var queue := incomingQueue;
      var i := 0;
      while i < n
        invariant i <= n <= |queue| && batch == queue[..i] && incomingQueue == queue[i..]
      {
        batch := batch + [incomingQueue[0]];
        incomingQueue := incomingQueue[1..];
        i := i + 1;
      }
      more := incomingQueue != [];
    }

    /** The loop over slotHolders_ */
    method FindHolder() returns (j: nat)
      requires Valid()
      ensures j == FirstFree(holders[..])
    {
      j := 0;
      while j < holders.Length && holders[j] != EMPTY
        invariant j <= holders.Length && forall i | 0 <= i < j :: holders[i] != EMPTY
      {
        j := j + 1;
      }
      ghost var k := FirstFree(holders[..]);
      assert j < holders.Length ==> holders[..][j] == EMPTY;
    }

    /** One packet of the batch, with wg_netif_input_slot: what the step Deliver does */
    method DeliverOne(slot: nat, refused: bool, ghost s: State)
      requires Valid() && Shows(s) && s.batch != [] && s.batch[0] == slot && slot < POOL_SIZE && slot !in s.free
      modifies pool, pool.next, holders
      ensures Valid() && Shows(Delivered(s, refused))
      ensures pool.free == s.free || pool.free == [slot] + s.free
    {
      hide FirstFree;
      var j := FindHolder();
      if j == holders.Length {
        pool.Release(slot);
        return;
      }
      holders[j] := slot;
      if refused {
        holders[j] := EMPTY;
        pool.Release(slot);
      }
      assert holders[..] == if refused then s.holders else s.holders[j := slot];
    }

    /** wg_slot_pbuf_free: the step Free */
    method SlotFreed(j: nat, ghost s: State)
      requires Valid() && Shows(s) && Enabled(s, Free(j)) && s.holders[j] < POOL_SIZE && s.holders[j] !in s.free
      modifies pool, pool.next, holders
      ensures Valid() && Shows(Next(s, Free(j)))
    {
      var slot := holders[j];
      holders[j] := EMPTY;
      pool.Release(slot);
      assert holders[..] == s.holders[j := EMPTY];
    }

    method ReleaseFront()
      requires Valid() && incomingQueue != [] && Apart(incomingQueue, pool.free)
      modifies this`incomingQueue, pool, pool.next
      ensures Valid() && incomingQueue == old(incomingQueue)[1..]
        && pool.free == [old(incomingQueue)[0]] + old(pool.free)
      ensures Apart(incomingQueue, pool.free) && holders[..] == old(holders[..])
    {
      pool.Release(incomingQueue[0]);
      incomingQueue := incomingQueue[1..];
    }

    /** The end of stop(): the step Drain */
    method DrainQueue(ghost s: State)
      requires Valid() && Shows(s) && Enabled(s, Drain) && Apart(s.queue, s.free)
      modifies this`incomingQueue, pool, pool.next
      ensures Valid() && Shows(Next(s, Drain))
    {
      hide Valid, Apart, Reversed;
      EmptyQueue();
    }

    method EmptyQueue()
      requires Valid() && Apart(incomingQueue, pool.free)
      modifies this`incomingQueue, pool, pool.next
      ensures Valid() && incomingQueue == [] && pool.free == Reversed(old(incomingQueue)) + old(pool.free)
      ensures holders[..] == old(holders[..])
    {
      hide Valid, Apart, Reversed;
      ghost var queue, free, held := incomingQueue, pool.free, holders[..];
      ghost var n := 0;
      NothingReversed(queue[..0]);
      while incomingQueue != []
        invariant Valid() && n <= |queue| && incomingQueue == queue[n..] && holders[..] == held
        invariant pool.free == Reversed(queue[..n]) + free && Apart(incomingQueue, pool.free)
        decreases |incomingQueue|
      {
        ReversedStep(queue, n);
        ReleaseFront();
        n := n + 1;
      }
      assert queue[..n] == queue;
    }
  }

  /** The rest of a batch stays apart from the free list when its first slot may have gone there. */
  lemma PlacedApart(slots: seq<nat>, free: seq<nat>, free': seq<nat>)
    requires slots != [] && Apart(slots, free) && (free' == free || free' == [slots[0]] + free)
    ensures Apart(slots[1..], free')
  {}

  lemma NothingReversed(q: seq<nat>)
    requires q == []
    ensures Reversed(q) == []
  {}

  lemma {:induction false} ReversedAppend(q: seq<nat>, x: nat)
    ensures Reversed(q + [x]) == [x] + Reversed(q)
  {
    if q != [] {
      assert (q + [x])[1..] == q[1..] + [x];
      ReversedAppend(q[1..], x);
    }
  }

  lemma ReversedStep(q: seq<nat>, n: nat)
    requires n < |q|
    ensures Reversed(q[..n + 1]) == [q[n]] + Reversed(q[..n])
  {
    assert q[..n + 1] == q[..n] + [q[n]];
    ReversedAppend(q[..n], q[n]);
  }
}
