/**
 Limits that hold in every run: how old a key can be when wg_send uses it, what one period of
 the keepalive thread guarantees, sizes; and the marks that a delivery leaves.
 */
module Limits {
  import opened MachineInts
  import opened Options
  import opened Noise
  import opened Tunnel
  import opened TunnelInvariants
  import opened Nonces
  import opened NonceRuns
  import Replay

  // Where the keys of the legacy session come from.

  /** The steps that install keys; each has the time of its handshake. */
  predicate Installing(step: Step) {
    step.ReceiveInit? || step.ConnectPassive? || step.ConnectResponse? || step.RekeyResponse?
  }

  predicate SameKeys(s: Session, t: Session) {
    s.valid && t.sendingKey == s.sendingKey && t.lastHandshake == s.lastHandshake
  }

  /** The legacy session has its keys from before, or from this step. */
  predicate FromBefore(w: World, v: World) { v.tun.session.valid ==> SameKeys(w.tun.session, v.tun.session) }

  predicate FromNow(w: World, v: World, now: nat) {
    v.installs == w.installs + [InstallOf(v.tun.session)] && v.tun.session.lastHandshake == now
  }

  lemma ProcessOrigin(w: World, m: Init, ephemeral: nat, index: nat, now: nat)
    ensures var v := AfterInitProcess(w, m, ephemeral, index, now).0; FromBefore(w, v) || FromNow(w, v, now)
  {
    hide Respond;
  }

  lemma ResponseOrigin(w: World, r: Response, now: nat)
    requires w.call.Busy? && w.connecting.Some?
    ensures var v := AfterHandshakeResponse(w, r, now); FromBefore(w, v) || FromNow(w, v, now)
  {
    hide Finish;
  }

  lemma TransportOrigin(w: World, receiver: nat, counter: nat, cipher: Term, length: nat, now: nat)
    requires RingsShaped(w.tun)
    ensures FromBefore(w, w.(tun := AfterTransport(w.tun, receiver, counter, cipher, length, now)))
  {
    hide Select, Replay.Step, OnCurrent, OnPrevious;
  }

  lemma InstallOrigin(w: World, step: Step)
    requires RingsShaped(w.tun) && Installing(step)
    ensures FromBefore(w, Next(w, step)) || FromNow(w, Next(w, step), step.now)
  {
    hide RingsShaped, AfterInitProcess, AfterHandshakeResponse, Find;
    if step.ReceiveInit? || step.ConnectPassive? {
      ProcessOrigin(w, step.init, step.ephemeral, step.index, step.now);
    } else if step.ConnectResponse? && Awaiting(w, false) {
      ResponseOrigin(w, step.response, step.now);
    } else if step.RekeyResponse? && Awaiting(w, true) && w.tun.pendingResponse.Some? {
      ResponseOrigin(w, w.tun.pendingResponse.value, step.now);
    }
  }

  lemma OtherOrigin(w: World, step: Step)
    requires Inv(w) && RingsShaped(w.tun) && !Installing(step)
    ensures FromBefore(w, Next(w, step))
  {
    if step.ReceiveTransport? {
      TransportOrigin(w, step.receiver, step.counter, step.cipher, step.length, step.now);
    } else if step.ReceiveResponse? {
      ResponsesIgnored(w, step.response, step.now);
    }
    hide Inv, RingsShaped, AfterTransport, AfterReceiveResponse, InitState, Find;
  }

  /** Step m installed this key, by a handshake at this time. */
  ghost predicate Keyed(c: Config, steps: seq<Step>, m: nat, key: Term, time: nat) {
    && m < |steps| && Installing(steps[m]) && steps[m].now == time
    && var w, v := At(c, steps, m), At(c, steps, m + 1);
       |v.installs| == |w.installs| + 1 && v.installs[|w.installs|].sending == key
  }

  lemma {:induction false} LegacyKeyed(c: Config, steps: seq<Step>, n: nat) returns (m: nat)
    requires n <= |steps| && At(c, steps, n).tun.session.valid
    ensures m < n && var s := At(c, steps, n).tun.session; Keyed(c, steps, m, s.sendingKey, s.lastHandshake)
  {
    hide Inv, RingsShaped, Next;
    if n == 0 {
      assert false by { Unkeyed(c, steps); }
    } else {
      AtNext(c, steps, n - 1);
      var w, v := At(c, steps, n - 1), At(c, steps, n);
      hide At;
      if Installing(steps[n - 1]) { InstallOrigin(w, steps[n - 1]); } else { OtherOrigin(w, steps[n - 1]); }
      if SameKeys(w.tun.session, v.tun.session) {
        m := LegacyKeyed(c, steps, n - 1);
      } else {
        m := n - 1;
      }
    }
  }

  lemma Unkeyed(c: Config, steps: seq<Step>)
    ensures !At(c, steps, 0).tun.session.valid
  {}

  /**
   In every run, whatever leaves by wg_send carries a key that a handshake of that run installed less
   than 180 seconds before, and a counter below the limit.
   */
  lemma SentInTime(c: Config, steps: seq<Step>, n: nat) returns (m: nat)
    requires n < |steps| && steps[n].Send? && At(c, steps, n + 1).sent != At(c, steps, n).sent
    ensures var w, v := At(c, steps, n), At(c, steps, n + 1);
      && |v.sent| == |w.sent| + 1 && v.sent[|w.sent|].counter < Replay.LIMIT
      && m < n && Installing(steps[m]) && Keyed(c, steps, m, v.sent[|w.sent|].key, steps[m].now)
      && Elapsed(steps[n].now, steps[m].now) < 180*SECOND
  {
    AtNext(c, steps, n);
    hide At, Inv, RingsShaped;
    m := LegacyKeyed(c, steps, n);
  }

  // One period of the keepalive thread.

  /**
   When the thread has looked at a peer, its session is less than 540 seconds old; if it has heard
   from the peer it has sent within the last 10 seconds, and within the interval if one is set.
   */
  lemma Ticked(w: World, i: nat, now: nat)
    requires i < |w.tun.peers| && w.tun.peers[i].configured
    ensures var v := AfterTickPeer(w, i, now);
      && |v.tun.peers| == |w.tun.peers|
      && var p := v.tun.peers[i];
         p.session.valid ==>
           && Elapsed(now, p.session.lastHandshake) < 540*SECOND
           && (p.session.lastReceived > 0 ==> Elapsed(now, p.lastSent) < 10*SECOND)
           && (w.tun.keepaliveInterval > 0 ==> Elapsed(now, p.lastSent) < w.tun.keepaliveInterval*SECOND)
  {
    assert Elapsed(now, now) == 0;
    hide Elapsed;
  }

  lemma LegacyTicked(w: World, now: nat)
    ensures var s := AfterTickLegacy(w, now).tun.session; s.valid ==> Elapsed(now, s.lastHandshake) < 540*SECOND
  {}

  // Sizes.

  /** With header and tag, what wg_send and wg_netif_output send is at most 2048 bytes long. */
  lemma SentFits(w: World, step: Step)
    requires RingsShaped(w.tun) && (step.Send? || step.Output?) && Next(w, step).sent != w.sent
    ensures 16 + step.length + 16 <= 2048
  {
    hide RingsShaped, InitState, Find;
  }

  lemma TableGrows(w: World, step: Step)
    requires RingsShaped(w.tun) && |w.tun.peers| <= 64
    ensures |Next(w, step).tun.peers| <= 64
  {
    hide RingsShaped, InitState, Respond, Finish, Select, Opened;
  }

  /** In every run, the table has at most 64 peers. */
  lemma {:induction false} TableBounded(c: Config, steps: seq<Step>, n: nat)
    requires n <= |steps|
    ensures |At(c, steps, n).tun.peers| <= 64
  {
    hide At, Next, Inv, RingsShaped;
    if n == 0 {
      NoPeers(c, steps);
    } else {
      AtNext(c, steps, n - 1);
      TableBounded(c, steps, n - 1);
      TableGrows(At(c, steps, n - 1), steps[n - 1]);
    }
  }

  lemma NoPeers(c: Config, steps: seq<Step>)
    ensures At(c, steps, 0).tun.peers == []
  {}

  // Deliveries.

  /** What a delivered payload leaves behind: the time, the next counter expected, and a table peer connected */
  lemma DeliveryMarks(t: Tunnel, receiver: nat, counter: nat, cipher: Term, length: nat, now: nat)
    requires RingsShaped(t) && Delivers(t, receiver, counter, cipher, length, now)
    ensures var c, u := Select(t, receiver), AfterTransport(t, receiver, counter, cipher, length, now);
      && |u.peers| == |t.peers| && !c.NoSession?
      && SessionOf(u, c).lastReceived == now && SessionOf(u, c).receivingCounter == counter + 1
      && SessionOf(u, c).receivingKey == SessionOf(t, c).receivingKey
      && SessionOf(u, c).lastHandshake == SessionOf(t, c).lastHandshake
      && (c.Current? || c.Previous? ==>
        u.peers[c.peer].connected && u.peers[c.peer].lastSent == t.peers[c.peer].lastSent)
  {
    hide Select, Replay.Step, Expired;
  }

  /** A packet without payload, within the lifetime: the session is heard from, the peer connected and fresh. */
  lemma KeepaliveMarks(t: Tunnel, receiver: nat, counter: nat, cipher: Term, now: nat)
    requires RingsShaped(t) && !Select(t, receiver).NoSession?
    requires !Expired(SessionOf(t, Select(t, receiver)), now)
    ensures var c, u := Select(t, receiver), AfterTransport(t, receiver, counter, cipher, 0, now);
      && |u.peers| == |t.peers| && SessionOf(u, c) == SessionOf(t, c).(lastReceived := now)
      && (c.Current? || c.Previous? ==> u.peers[c.peer].connected && u.peers[c.peer].lastSent == now)
  {
    hide Select, Expired;
  }

  /** 180 seconds after its handshake a session takes nothing any more, and a previous one is wiped by the attempt. */
  lemma TooLate(t: Tunnel, receiver: nat, counter: nat, cipher: Term, length: nat, now: nat)
    requires RingsShaped(t) && !Select(t, receiver).NoSession?
    requires Elapsed(now, SessionOf(t, Select(t, receiver)).lastHandshake) >= 180*SECOND
    ensures !Delivers(t, receiver, counter, cipher, length, now)
    ensures var c, u := Select(t, receiver), AfterTransport(t, receiver, counter, cipher, length, now);
      && |u.peers| == |t.peers|
      && SessionOf(u, c) == (if c.Previous? || c.LegacyPrevious? then WIPED else SessionOf(t, c))
  {
    hide Select, Opened;
  }

  // A handshake that wg_netif_output starts.

  /** The state that is kept accepts the peer's answer, which comes to the index that was chosen. */
  lemma TriggerAccepts(t: Tunnel, i: nat, r: nat, ephemeral: nat, index: nat, stamp: nat, er: nat, rx: nat)
    requires i < |t.peers| && t.peers[i].publicKey == Pub(r)
    ensures var p := Triggered(t, i, ephemeral, index, stamp).peers[i];
      var a := Respond(r, t.psk, InitMessage(t.secret, Pub(r), ephemeral, index, stamp), er, rx);
      && a.Some? && a.value.response.receiver == index == p.session.localIndex
      && p.session.oldLocalIndex == t.peers[i].session.localIndex
      && Finish(t.secret, t.psk, p.pending.ephemeral, p.pending.symmetric, a.value.response).1
  {
    Exchange(t.secret, r, ephemeral, er, index, rx, stamp, t.psk, t.psk);
    InitAccepted(t.secret, r, ephemeral, index, stamp, t.psk, er, rx);
    hide Respond, InitMessage, InitState, Finish;
  }
}
