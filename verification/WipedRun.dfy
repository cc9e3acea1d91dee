/** A run of the code that repeats a nonce, for every tunnel. */
module WipedRun {
  import opened Options
  import opened Noise
  import opened Tunnel
  import opened TunnelInvariants
  import opened Nonces
  import opened NonceRuns

  const LATER: nat := 3*REJECT_AFTER_TIME*SECOND

  /** No call in progress, no legacy keys, and one table peer */
  predicate Keyless(w: World, friend: nat) {
    && w.call.Idle? && w.connecting.None? && !w.tun.session.valid && Sent(w.tun.session, w.wipes).key == Zero
    && FriendOnly(w, friend)
  }

  predicate FriendOnly(w: World, friend: nat) {
    |w.tun.peers| == 1 && w.tun.peers[0].configured && w.tun.peers[0].publicKey == Pub(friend)
  }

  predicate UsedBelow(w: World, x: nat) { forall y | y in w.used :: y < x }

  /** Still without legacy keys, and nothing sent */
  predicate Unmoved(w: World, v: World, friend: nat) {
    && v.sent == w.sent && v.wipes == w.wipes && v.tun.secret == w.tun.secret && FriendOnly(v, friend)
    && !v.tun.session.valid && Sent(v.tun.session, v.wipes) == Sent(w.tun.session, w.wipes)
  }

  /** The table peer's session is one that was installed at this time. */
  predicate Born(w: World, now: nat) {
    |w.tun.peers| == 1 && w.tun.peers[0].session.valid && w.tun.peers[0].session.lastHandshake == now
      && w.tun.peers[0].connected
  }

  lemma Take(c: Config, steps: seq<Step>, step: Step) returns (steps': seq<Step>)
    requires FreshRun(c, steps) && Fresh(At(c, steps, |steps|), step)
    ensures FreshRun(c, steps') && |steps'| == |steps| + 1 && RingsShaped(At(c, steps, |steps|).tun)
    ensures At(c, steps', |steps'|) == Next(At(c, steps, |steps|), step)
  {
    hide At, Inv, RingsShaped, Next, Fresh;
    GrowFresh(c, steps, step);
    steps' := steps + [step];
  }

  // One call of wg_connect that answers the table peer.

  lemma Starts(w: World, friend: nat, x: nat)
    requires Keyless(w, friend)
    ensures var v := AfterConnectInit(w, x, 0, 0, false);
      Awaiting(v, false) && Unmoved(w, v, friend) && v.used == w.used + {x}
  {
    hide InitState;
  }

  lemma Answers(w: World, friend: nat, x: nat, stamp: nat, now: nat)
    requires Awaiting(w, false) && FriendOnly(w, friend) && !w.tun.session.valid
    ensures var v := AfterConnectPassive(w, InitMessage(friend, Pub(w.tun.secret), stamp, 0, 0), x, 0, now);
      MayReturn(v) && v.call.err == Ok && Unmoved(w, v, friend) && v.used == w.used + {x} && Born(v, now)
  {
    hide Respond, InitMessage;
    InitAccepted(friend, w.tun.secret, stamp, 0, 0, w.tun.psk, x, 0);
  }

  lemma Goes(w: World, friend: nat, now: nat)
    requires MayReturn(w) && w.call.err == Ok && FriendOnly(w, friend)
    ensures var v := AfterReturn(w, now);
      && v.call.Idle? && v.connecting.None? && v.sent == w.sent + [Sent(w.tun.session, w.wipes)]
      && v.used == w.used && v.wipes == w.wipes && v.tun.secret == w.tun.secret && v.tun.peers == w.tun.peers
  {}

  lemma TakeInit(c: Config, steps: seq<Step>, friend: nat, x: nat) returns (steps': seq<Step>)
    requires FreshRun(c, steps) && Keyless(At(c, steps, |steps|), friend) && UsedBelow(At(c, steps, |steps|), x)
    ensures |steps'| == |steps| + 1 && FreshRun(c, steps')
    ensures var w, v := At(c, steps, |steps|), At(c, steps', |steps'|);
      Awaiting(v, false) && Unmoved(w, v, friend) && UsedBelow(v, x + 1)
  {
    hide At, Inv, RingsShaped, FreshRun, AfterConnectInit, Unmoved, Keyless;
    Starts(At(c, steps, |steps|), friend, x);
    steps' := Take(c, steps, ConnectInit(x, 0, 0, false));
  }

  lemma TakePassive(c: Config, steps: seq<Step>, friend: nat, x: nat, now: nat) returns (steps': seq<Step>)
    requires FreshRun(c, steps) && UsedBelow(At(c, steps, |steps|), x)
    requires var w := At(c, steps, |steps|); Awaiting(w, false) && FriendOnly(w, friend) && !w.tun.session.valid
    ensures |steps'| == |steps| + 1 && FreshRun(c, steps')
    ensures var w, v := At(c, steps, |steps|), At(c, steps', |steps'|);
      MayReturn(v) && v.call.err == Ok && Unmoved(w, v, friend) && UsedBelow(v, x + 1) && Born(v, now)
  {
    hide At, Inv, RingsShaped, FreshRun, AfterConnectPassive, Unmoved, InitMessage, Born;
    var w := At(c, steps, |steps|);
    Answers(w, friend, x, now, now);
    steps' := Take(c, steps, ConnectPassive(InitMessage(friend, Pub(w.tun.secret), now, 0, 0), x, 0, now));
  }

  lemma TakeReturn(c: Config, steps: seq<Step>, friend: nat, now: nat) returns (steps': seq<Step>)
    requires FreshRun(c, steps)
    requires var w := At(c, steps, |steps|); MayReturn(w) && w.call.err == Ok && FriendOnly(w, friend)
    ensures |steps'| == |steps| + 1 && FreshRun(c, steps')
    ensures var w, v := At(c, steps, |steps|), At(c, steps', |steps'|);
      && v.call.Idle? && v.connecting.None? && v.sent == w.sent + [Sent(w.tun.session, w.wipes)]
      && v.used == w.used && v.wipes == w.wipes && v.tun.peers == w.tun.peers
  {
    hide At, Inv, RingsShaped, FreshRun, AfterReturn, Sent;
    Goes(At(c, steps, |steps|), friend, now);
    steps' := Take(c, steps, Return(now));
  }

  /** The call as part of a run: one packet, under the legacy session's key, which it has not got */
  lemma Greeting(c: Config, steps: seq<Step>, friend: nat, x: nat, now: nat) returns (steps': seq<Step>)
    requires FreshRun(c, steps) && Keyless(At(c, steps, |steps|), friend) && UsedBelow(At(c, steps, |steps|), x)
    ensures |steps'| == |steps| + 3 && FreshRun(c, steps')
    ensures var w, v := At(c, steps, |steps|), At(c, steps', |steps'|);
      && v.call.Idle? && v.connecting.None? && v.sent == w.sent + [Sent(w.tun.session, w.wipes)]
      && v.wipes == w.wipes && FriendOnly(v, friend) && UsedBelow(v, x + 2) && Born(v, now)
  {
    hide At, Inv, RingsShaped, FreshRun, Keyless, Born, Sent, Awaiting, MayReturn;
    steps' := TakeInit(c, steps, friend, x);
    steps' := TakePassive(c, steps', friend, x + 1, now);
    var v := At(c, steps', |steps'|);
    steps' := TakeReturn(c, steps', friend, now);
    Reborn(v, At(c, steps', |steps'|), now);
  }

  lemma Reborn(w: World, v: World, now: nat)
    requires Born(w, now) && v.tun.peers == w.tun.peers
    ensures Born(v, now)
  {}

  // A stranger's handshake, and one period of the keepalive thread much later.

  /** No call in progress, and keys everywhere that were installed at time zero */
  predicate AllKeyed(w: World, friend: nat) {
    && w.call.Idle? && w.connecting.None? && FriendOnly(w, friend) && Born(w, 0)
    && w.tun.session.valid && w.tun.session.lastHandshake == 0
  }

  lemma InitFromStranger(w: World, friend: nat, stranger: nat, x: nat)
    requires w.call.Idle? && w.connecting.None? && FriendOnly(w, friend) && Born(w, 0) && friend != stranger
    ensures var v := AfterReceiveInit(w, InitMessage(stranger, Pub(w.tun.secret), 0, 0, 0), x, 0, 0);
      && AllKeyed(v, friend) && v.wipes == w.wipes && v.used == w.used + {x}
      && v.sent == w.sent + [Sent(w.tun.peers[0].session, w.wipes)]
  {
    NotInTable(w, friend, stranger);
    hide Respond, InitMessage, FindByKey;
    InitAccepted(stranger, w.tun.secret, 0, 0, 0, w.tun.psk, x, 0);
  }

  lemma NotInTable(w: World, friend: nat, stranger: nat)
    requires FriendOnly(w, friend) && friend != stranger
    ensures FindByKey(w.tun, Pub(stranger)).None?
  {}

  /** All keys have gone stale: the period wipes the peer's session, and then the legacy one. */
  lemma Period(w: World, friend: nat)
    requires AllKeyed(w, friend)
    ensures var v := AfterTickLegacy(AfterTickPeer(w, 0, LATER), LATER);
      && v.sent == w.sent && v.used == w.used && v.wipes == w.wipes + 1
      && Keyless(v, friend) && Sent(v.tun.session, v.wipes) == Packet(Zero, 0, v.wipes)
  {}

  lemma Added(c: Config, friend: nat)
    ensures RingsShaped(Origin(c).tun) && Fresh(Origin(c), AddPeer(Pub(friend), 7))
    ensures var v := Next(Origin(c), AddPeer(Pub(friend), 7));
      && Keyless(v, friend) && UsedBelow(v, c.secret + 1) && v.sent == [] && v.wipes == 0
      && Sent(v.tun.session, 0) == Packet(Zero, 0, 0)
  {
    InvShaped(Origin(c));
  }

  lemma Nothing(c: Config)
    ensures FreshRun(c, []) && At(c, [], 0) == Origin(c)
  {}

  /** The first call, and a stranger who brings legacy keys */
  lemma FirstHalf(c: Config, friend: nat, stranger: nat, x: nat) returns (steps: seq<Step>, p: Packet)
    requires x == c.secret + 1 && friend != stranger
    ensures FreshRun(c, steps) && AllKeyed(At(c, steps, |steps|), friend) && UsedBelow(At(c, steps, |steps|), x + 3)
    ensures At(c, steps, |steps|).sent == [Packet(Zero, 0, 0), p] && At(c, steps, |steps|).wipes == 0
  {
    Added(c, friend);
    Nothing(c);
    hide At, Inv, RingsShaped, FreshRun, AfterReceiveInit, InitMessage, Sent, Origin, Keyless, Born, AddedPeer;
    steps := Take(c, [], AddPeer(Pub(friend), 7));
    steps := Greeting(c, steps, friend, x, 0);
    var w := At(c, steps, |steps|);
    InitFromStranger(w, friend, stranger, x + 2);
    p := Sent(w.tun.peers[0].session, w.wipes);
    steps := Take(c, steps, ReceiveInit(InitMessage(stranger, Pub(w.tun.secret), 0, 0, 0), x + 2, 0, 0));
  }

  /** One period of the keepalive thread: every peer, then the legacy session */
  lemma TakePeriod(c: Config, steps: seq<Step>, friend: nat) returns (steps': seq<Step>)
    requires FreshRun(c, steps) && AllKeyed(At(c, steps, |steps|), friend)
    ensures FreshRun(c, steps')
    ensures var w, v := At(c, steps, |steps|), At(c, steps', |steps'|);
      && v.sent == w.sent && v.used == w.used && v.wipes == w.wipes + 1
      && Keyless(v, friend) && Sent(v.tun.session, v.wipes) == Packet(Zero, 0, v.wipes)
  {
    hide At, Inv, RingsShaped, FreshRun, AfterTickPeer, AfterTickLegacy, Sent, Keyless;
    Period(At(c, steps, |steps|), friend);
    steps' := Take(c, steps, TickPeer(0, LATER));
    steps' := Take(c, steps', TickLegacy(LATER));
  }

  /** The period, and the second call */
  lemma SecondHalf(c: Config, steps: seq<Step>, friend: nat, x: nat) returns (steps': seq<Step>)
    requires FreshRun(c, steps) && AllKeyed(At(c, steps, |steps|), friend) && UsedBelow(At(c, steps, |steps|), x)
    ensures FreshRun(c, steps')
    ensures var w, v := At(c, steps, |steps|), At(c, steps', |steps'|);
      v.sent == w.sent + [Packet(Zero, 0, w.wipes + 1)]
  {
    hide At, Inv, FreshRun, Sent, Keyless, AllKeyed, Born;
    steps' := TakePeriod(c, steps, friend);
    steps' := Greeting(c, steps', friend, x, LATER);
  }

  /** For every tunnel, a run with fresh ephemerals that sends two packets under the all-zero key with counter zero */
  lemma WipedReuse(c: Config) returns (steps: seq<Step>)
    ensures FreshRun(c, steps)
    ensures var sent := SentIn(c, steps);
      |sent| == 3 && Repeats(sent, 0, 2) && sent[0].key == Zero && sent[0].counter == 0
  {
    hide Inv, FreshRun, At;
    var x := c.secret + 1;
    var p;
    steps, p := FirstHalf(c, x, x + 1, x);
    steps := SecondHalf(c, steps, x, x + 3);
  }
}
