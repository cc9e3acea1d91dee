/** For every tunnel with a peer, a run in which wg_rekey makes a payload undeliverable that was deliverable before. */
module LateRun {
  import opened Options
  import opened Noise
  import opened Tunnel
  import opened TunnelInvariants
  import opened Nonces
  import opened NonceRuns
  import opened Deliveries
  import opened Rotation
  import opened WipedRun
  import Replay

  /** The peer's response to the handshake that ephemeral x starts */
  function Reply(w: World, r: nat, x: nat, index: nat): Response
    requires Respond(r, w.tun.psk, InitMessage(w.tun.secret, Pub(r), x, index, 0), 0, 0).Some?
  {
    Respond(r, w.tun.psk, InitMessage(w.tun.secret, Pub(r), x, index, 0), 0, 0).value.response
  }

  lemma ReplyAccepted(w: World, r: nat, x: nat, index: nat)
    ensures Respond(r, w.tun.psk, InitMessage(w.tun.secret, Pub(r), x, index, 0), 0, 0).Some?
    ensures Reply(w, r, x, index).receiver == index
    ensures Finish(w.tun.secret, w.tun.psk, x, InitState(w.tun.secret, Pub(r), x, index, 0), Reply(w, r, x, index)).1
  {
    InitAccepted(w.tun.secret, r, x, index, 0, w.tun.psk, 0, 0);
    Exchange(w.tun.secret, r, x, 0, index, 0, 0, w.tun.psk, w.tun.psk);
    hide Respond, InitMessage, Finish, InitState;
  }

  predicate Single(w: World, r: nat) { w.tun.peers == [] && w.tun.peerPublic == Pub(r) }

  /** An attempt is under way whose handshake ephemeral x started. */
  predicate Waits(w: World, r: nat, rekey: bool, x: nat, index: nat) {
    && Single(w, r) && Awaiting(w, rekey) && w.tun.session.localIndex == index && w.tun.session.rekeyInProgress
    && w.connecting.value == Pending(InitState(w.tun.secret, Pub(r), x, index, 0), x)
  }

  /** Keys of this moment, under an index */
  predicate Keyed(s: Session) { s.valid && s.lastHandshake == 0 && s.replay == Replay.INITIAL }

  lemma Opens(w: World, r: nat, rekey: bool, x: nat, index: nat)
    requires Single(w, r) && w.call.Idle? && w.connecting.None?
    ensures var v := AfterConnectInit(w, x, index, 0, rekey);
      && Waits(v, r, rekey, x, index) && v.used == w.used + {x} && v.tun.secret == w.tun.secret
      && v.tun.session.oldLocalIndex == w.tun.session.localIndex && (Keyed(w.tun.session) ==> Keyed(v.tun.session))
  {
    hide InitState;
  }

  lemma Connects(w: World, r: nat, x: nat, index: nat)
    requires Waits(w, r, false, x, index)
    requires Respond(r, w.tun.psk, InitMessage(w.tun.secret, Pub(r), x, index, 0), 0, 0).Some?
    ensures var v := AfterConnectResponse(w, Reply(w, r, x, index), 0);
      && Single(v, r) && MayReturn(v) && v.call.err == Ok && v.used == w.used
      && Keyed(v.tun.session) && v.tun.session.localIndex == index
  {
    ReplyAccepted(w, r, x, index);
    hide InitState, Finish, Respond, InitMessage, Reply;
  }

  lemma ComesBack(w: World, r: nat)
    requires Single(w, r) && MayReturn(w) && w.call.err == Ok && Keyed(w.tun.session)
    ensures var v := AfterReturn(w, 0);
      && Single(v, r) && v.call.Idle? && v.connecting.None? && v.used == w.used
      && Keyed(v.tun.session) && v.tun.session.localIndex == w.tun.session.localIndex
  {}

  lemma Keeps(w: World, r: nat, x: nat, index: nat, reply: Response)
    requires Waits(w, r, true, x, index)
    ensures var v := AfterReceiveResponse(w, reply, 0);
      Waits(v, r, true, x, index) && v.used == w.used && v.tun == w.tun.(pendingResponse := Some(reply))
  {}

  lemma Completed(w: World, r: nat, x: nat, index: nat)
    requires Waits(w, r, true, x, index) && RingsShaped(w.tun)
    requires Respond(r, w.tun.psk, InitMessage(w.tun.secret, Pub(r), x, index, 0), 0, 0).Some?
    requires w.tun.pendingResponse == Some(Reply(w, r, x, index))
    ensures Completes(w, RekeyResponse(0))
  {
    ReplyAccepted(w, r, x, index);
    hide InitState, Finish, Respond, InitMessage, Reply, RingsShaped;
  }

  // The steps as parts of a run.

  lemma TakeOpens(c: Config, steps: seq<Step>, r: nat, rekey: bool, x: nat, index: nat) returns (steps': seq<Step>)
    requires FreshRun(c, steps)
    requires var w := At(c, steps, |steps|); Single(w, r) && w.call.Idle? && w.connecting.None? && UsedBelow(w, x)
    ensures |steps'| == |steps| + 1 && FreshRun(c, steps')
    ensures var w, v := At(c, steps, |steps|), At(c, steps', |steps'|);
      && Waits(v, r, rekey, x, index) && UsedBelow(v, x + 1)
      && v.tun.session.oldLocalIndex == w.tun.session.localIndex && (Keyed(w.tun.session) ==> Keyed(v.tun.session))
  {
    hide At, Inv, RingsShaped, FreshRun, AfterConnectInit, Waits, Keyed, Single;
    Opens(At(c, steps, |steps|), r, rekey, x, index);
    steps' := Take(c, steps, ConnectInit(x, index, 0, rekey));
  }

  lemma TakeConnects(c: Config, steps: seq<Step>, r: nat, x: nat, index: nat) returns (steps': seq<Step>)
    requires FreshRun(c, steps) && Waits(At(c, steps, |steps|), r, false, x, index)
    ensures |steps'| == |steps| + 1 && FreshRun(c, steps')
    ensures var w, v := At(c, steps, |steps|), At(c, steps', |steps'|);
      && Single(v, r) && MayReturn(v) && v.call.err == Ok && v.used == w.used
      && Keyed(v.tun.session) && v.tun.session.localIndex == index
  {
    hide At, Inv, RingsShaped, FreshRun, AfterConnectResponse, Waits, Keyed, Single, MayReturn, Respond, InitMessage;
    var w := At(c, steps, |steps|);
    ReplyAccepted(w, r, x, index);
    Connects(w, r, x, index);
    steps' := Take(c, steps, ConnectResponse(Reply(w, r, x, index), 0));
  }

  lemma TakeComesBack(c: Config, steps: seq<Step>, r: nat) returns (steps': seq<Step>)
    requires FreshRun(c, steps)
    requires var w := At(c, steps, |steps|); Single(w, r) && MayReturn(w) && w.call.err == Ok && Keyed(w.tun.session)
    ensures |steps'| == |steps| + 1 && FreshRun(c, steps')
    ensures var w, v := At(c, steps, |steps|), At(c, steps', |steps'|);
      && Single(v, r) && v.call.Idle? && v.connecting.None? && v.used == w.used
      && Keyed(v.tun.session) && v.tun.session.localIndex == w.tun.session.localIndex
  {
    hide At, Inv, RingsShaped, FreshRun, AfterReturn, Keyed, Single, MayReturn;
    ComesBack(At(c, steps, |steps|), r);
    steps' := Take(c, steps, Return(0));
  }

  lemma TakeKeeps(c: Config, steps: seq<Step>, r: nat, x: nat, index: nat) returns (steps': seq<Step>)
    requires FreshRun(c, steps) && Waits(At(c, steps, |steps|), r, true, x, index)
    ensures |steps'| == |steps| + 1 && FreshRun(c, steps')
    ensures var w, v := At(c, steps, |steps|), At(c, steps', |steps'|);
      && Waits(v, r, true, x, index) && v.tun.session == w.tun.session
      && Respond(r, v.tun.psk, InitMessage(v.tun.secret, Pub(r), x, index, 0), 0, 0).Some?
      && v.tun.pendingResponse == Some(Reply(v, r, x, index))
  {
    hide At, Inv, RingsShaped, FreshRun, AfterReceiveResponse, Waits, Respond, InitMessage;
    var w := At(c, steps, |steps|);
    ReplyAccepted(w, r, x, index);
    Keeps(w, r, x, index, Reply(w, r, x, index));
    steps' := Take(c, steps, ReceiveResponse(Reply(w, r, x, index), 0));
  }

  /** wg_connect: three steps to keys under index 1 */
  lemma Connected(c: Config, r: nat) returns (steps: seq<Step>)
    requires c.peerPublic == Pub(r)
    ensures |steps| == 3 && FreshRun(c, steps)
    ensures var w := At(c, steps, 3);
      && Single(w, r) && w.call.Idle? && w.connecting.None? && UsedBelow(w, c.secret + 2)
      && Keyed(w.tun.session) && w.tun.session.localIndex == 1
  {
    hide At, Inv, FreshRun, Waits, Keyed, MayReturn, Single;
    AtStart(c, r);
    steps := TakeOpens(c, [], r, false, c.secret + 1, 1);
    steps := TakeConnects(c, steps, r, c.secret + 1, 1);
    steps := TakeComesBack(c, steps, r);
  }

  lemma AtStart(c: Config, r: nat)
    requires c.peerPublic == Pub(r)
    ensures FreshRun(c, [])
    ensures var w := At(c, [], 0); Single(w, r) && w.call.Idle? && w.connecting.None? && UsedBelow(w, c.secret + 1)
  {}

  /** wg_rekey: three more, the last of which completes the handshake */
  lemma Late(c: Config, r: nat) returns (steps: seq<Step>, cipher: Term)
    requires c.peerPublic == Pub(r)
    ensures |steps| == 6 && FreshRun(c, steps)
    ensures RingsShaped(At(c, steps, 5).tun) && RingsShaped(At(c, steps, 6).tun)
    ensures Delivers(At(c, steps, 5).tun, 1, 0, cipher, 1, 0)
    ensures !Delivers(At(c, steps, 6).tun, 1, 0, cipher, 1, 0)
  {
    var x := c.secret + 2;
    hide At, Inv, RingsShaped, FreshRun, Waits, Keyed, Delivers, Completes, Single, Respond, InitMessage, Next, Select;
    var start := Connected(c, r);
    start := TakeOpens(c, start, r, true, x, 2);
    start := TakeKeeps(c, start, r, x, 2);
    var w := At(c, start, 5);
    Facts(w, r, true, x, 2);
    InvShaped(w);
    Completed(w, r, x, 2);
    cipher := Sealed(w.tun.session.receivingKey, 0, Empty, Empty);
    Heard1(w.tun, cipher);
    steps := start + [RekeyResponse(0)];
    GrowFresh(c, start, RekeyResponse(0));
    Grow(c, start, [RekeyResponse(0)], 5);
    InvShaped(At(c, steps, 6));
    LateLost(c, steps, 5, 1, 0, cipher, 1, 0);
  }

  lemma Facts(w: World, r: nat, rekey: bool, x: nat, index: nat)
    requires Waits(w, r, rekey, x, index)
    ensures w.tun.peers == []
  {}

  /** The first payload under the session's key */
  lemma Heard1(t: Tunnel, cipher: Term)
    requires RingsShaped(t) && Keyed(t.session) && t.peers == [] && t.session.oldLocalIndex == 1
    requires cipher == Sealed(t.session.receivingKey, 0, Empty, Empty)
    ensures t.session.valid && Select(t, 1) == Legacy && Delivers(t, 1, 0, cipher, 1, 0)
  {}
}
