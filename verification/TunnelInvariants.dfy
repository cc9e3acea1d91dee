/**
 What every reachable state of the tunnel keeps: the table peers' flags, the
 provenance of every valid session, and the history behind its replay window.
 */
module TunnelInvariants {
  import opened Options
  import opened Noise
  import opened Tunnel
  import Replay
  import ReplayRuns

  /** `connected` is `session.valid`, and a previous session only accompanies a current one. */
  predicate PeerFlags(p: Peer) {
    && p.connected == p.session.valid
    && (p.prevSession.valid ==> p.session.valid)
    && p.configured
  }

  /** A session's replay window is what its own counters made of it. */
  ghost predicate WindowOwn(s: Session) {
    s.replay == ReplayRuns.Run(s.presented)
  }

  /** Index pair and key pair of a valid session were installed together, by one handshake step. */
  predicate Born(s: Session, installs: seq<Install>) {
    s.valid ==> InstallOf(s) in installs
  }

  ghost predicate PeerInv(p: Peer, installs: seq<Install>) {
    && PeerFlags(p)
    && WindowOwn(p.session) && WindowOwn(p.prevSession)
    && Born(p.session, installs) && Born(p.prevSession, installs)
  }

  ghost predicate Inv(w: World) {
    && WindowOwn(w.tun.session) && WindowOwn(w.tun.prevSession)
    && forall i | 0 <= i < |w.tun.peers| :: PeerInv(w.tun.peers[i], w.installs)
  }

  lemma InvShaped(w: World)
    requires Inv(w)
    ensures RingsShaped(w.tun)
  {
    hide Born, PeerFlags, ReplayRuns.Run, Replay.Fits;
    ReplayRuns.RunFits(w.tun.session.presented);
    ReplayRuns.RunFits(w.tun.prevSession.presented);
    forall i | 0 <= i < |w.tun.peers|
      ensures Replay.Fits(w.tun.peers[i].session.replay) && Replay.Fits(w.tun.peers[i].prevSession.replay)
    {
      assert PeerInv(w.tun.peers[i], w.installs);
      ReplayRuns.RunFits(w.tun.peers[i].session.presented);
      ReplayRuns.RunFits(w.tun.peers[i].prevSession.presented);
    }
  }

  /** One peer changes, the history only grows. */
  lemma PeerChanged(w: World, v: World, i: nat)
    requires Inv(w) && i < |w.tun.peers| && w.installs <= v.installs
    requires |v.tun.peers| == |w.tun.peers| && PeerInv(v.tun.peers[i], v.installs)
    requires forall j | 0 <= j < |w.tun.peers| && j != i :: v.tun.peers[j] == w.tun.peers[j]
    requires v.tun.session == w.tun.session && v.tun.prevSession == w.tun.prevSession
    ensures Inv(v)
  {
    hide WindowOwn, PeerFlags;
    forall j | 0 <= j < |v.tun.peers|
      ensures PeerInv(v.tun.peers[j], v.installs)
    {
      if j != i { Grown(w.tun.peers[j], w.installs, v.installs); }
    }
  }

  lemma Grown(p: Peer, a: seq<Install>, b: seq<Install>)
    requires PeerInv(p, a) && a <= b
    ensures PeerInv(p, b)
  {
    hide WindowOwn, PeerFlags;
    assert forall x | x in a :: x in b;
  }

  /** The legacy session changes, the peers do not, the history only grows. */
  lemma LegacyChanged(w: World, v: World)
    requires Inv(w) && w.installs <= v.installs && v.tun.peers == w.tun.peers
    requires WindowOwn(v.tun.session) && WindowOwn(v.tun.prevSession)
    ensures Inv(v)
  {
    hide WindowOwn, PeerFlags;
    forall j | 0 <= j < |v.tun.peers|
      ensures PeerInv(v.tun.peers[j], v.installs)
    {
      Grown(w.tun.peers[j], w.installs, v.installs);
    }
  }

  lemma FreshWindow()
    ensures ReplayRuns.Run([]) == Replay.INITIAL
    ensures WindowOwn(WIPED)
  {}

  lemma PeerSentInv(w: World, i: nat, accepted: bool, now: nat)
    requires Inv(w) && i < |w.tun.peers|
    ensures Inv(PeerSent(w, i, accepted, now))
  {
    PeerChanged(w, PeerSent(w, i, accepted, now), i);
  }

  lemma InstalledOwn(s: Session, keys: Keys, local: nat, remote: nat, now: nat)
    ensures WindowOwn(Installed(s, keys, local, remote, now))
  {
    FreshWindow();
  }

  lemma InitProcessInv(w: World, m: Init, ephemeral: nat, index: nat, now: nat)
    requires Inv(w)
    ensures Inv(AfterInitProcess(w, m, ephemeral, index, now).0)
  {
    hide Respond, ReplayRuns.Run;
    var v := AfterInitProcess(w, m, ephemeral, index, now).0;
    var a := Respond(w.tun.secret, w.tun.psk, m, ephemeral, index);
    if a.Some? {
      var keys := ResponderKeys(a.value.outcome);
      var found := FindByKey(w.tun, a.value.peerStatic);
      if found.Some? {
        var p := w.tun.peers[found.value];
        InstalledOwn(p.session, keys, index, m.sender, now);
        Grown(p, w.installs, v.installs);
        PeerChanged(w, v, found.value);
      } else {
        InstalledOwn(w.tun.session, keys, index, m.sender, now);
        LegacyChanged(w, v);
      }
    } else {
      LegacyChanged(w, v);
    }
  }

  lemma OpenedOwn(s: Session, counter: nat, cipher: Term, length: nat, now: nat)
    requires WindowOwn(s)
    ensures |s.replay.ring| == Replay.WORDS && WindowOwn(Opened(s, counter, cipher, length, now).0)
    ensures var t := Opened(s, counter, cipher, length, now).0; t.valid == s.valid && InstallOf(t) == InstallOf(s)
  {
    hide Replay.Step;
    var n := s.presented + [counter];
    assert n[..|n| - 1] == s.presented;
  }

  /** A matched table peer has a valid current session. */
  lemma SelectedPeer(w: World, index: nat)
    requires Inv(w)
    ensures var c := Select(w.tun, index);
            && (c.Current? ==> w.tun.peers[c.peer].session.valid && w.tun.peers[c.peer].session.localIndex == index)
            && (c.Previous? ==> w.tun.peers[c.peer].prevSession.valid
                                && w.tun.peers[c.peer].prevSession.localIndex == index
                                && w.tun.peers[c.peer].session.valid)
  {
    var i := FindByIndex(w.tun, index);
    if i.Some? {
      assert PeerInv(w.tun.peers[i.value], w.installs);
    }
  }

  lemma OnCurrentInv(p: Peer, installs: seq<Install>, counter: nat, cipher: Term, length: nat, now: nat)
    requires PeerInv(p, installs) && p.session.valid
    ensures |p.session.replay.ring| == Replay.WORDS
    ensures PeerInv(OnCurrent(p, counter, cipher, length, now), installs)
  {
    hide Opened, WindowOwn, InstallOf;
    OpenedOwn(p.session, counter, cipher, length, now);
  }

  lemma OnPreviousInv(p: Peer, installs: seq<Install>, counter: nat, cipher: Term, length: nat, now: nat)
    requires PeerInv(p, installs) && p.session.valid
    ensures |p.prevSession.replay.ring| == Replay.WORDS
    ensures PeerInv(OnPrevious(p, counter, cipher, length, now), installs)
  {
    hide Opened, WindowOwn, InstallOf;
    FreshWindow();
    OpenedOwn(p.prevSession, counter, cipher, length, now);
  }

  lemma TransportInv(w: World, receiver: nat, counter: nat, cipher: Term, length: nat, now: nat)
    requires Inv(w)
    ensures RingsShaped(w.tun) && Inv(w.(tun := AfterTransport(w.tun, receiver, counter, cipher, length, now)))
  {
    InvShaped(w);
    SelectedPeer(w, receiver);
    FreshWindow();
    hide Select, Opened, OnCurrent, OnPrevious, WindowOwn, RingsShaped, PeerInv;
    var v := w.(tun := AfterTransport(w.tun, receiver, counter, cipher, length, now));
    match Select(w.tun, receiver) {
      case NoSession =>
      case Current(i) =>
        OnCurrentInv(w.tun.peers[i], w.installs, counter, cipher, length, now);
        PeerChanged(w, v, i);
      case Previous(i) =>
        OnPreviousInv(w.tun.peers[i], w.installs, counter, cipher, length, now);
        PeerChanged(w, v, i);
      case Legacy =>
        OpenedOwn(w.tun.session, counter, cipher, length, now);
        LegacyChanged(w, v);
      case LegacyPrevious =>
        OpenedOwn(w.tun.prevSession, counter, cipher, length, now);
        LegacyChanged(w, v);
    }
  }

  /** No table peer ever waits for a response in the way the receive thread tests it. */
  lemma NeverAwaits(w: World, receiver: nat)
    requires Inv(w)
    ensures Find(w.tun.peers, (p: Peer) => AwaitsResponse(p, receiver)).None?
  {
    var i := Find(w.tun.peers, (p: Peer) => AwaitsResponse(p, receiver));
    if i.Some? {
      assert PeerInv(w.tun.peers[i.value], w.installs);
    }
  }

  lemma OutputInv(w: World, ip: nat, length: nat, ephemeral: nat, index: nat, stamp: nat, accepted: bool, now: nat)
    requires Inv(w)
    ensures Inv(AfterOutput(w, ip, length, ephemeral, index, stamp, accepted, now))
  {
    hide InitState, ReplayRuns.Run;
    var i := FindByIp(w.tun, ip);
    if i.Some? {
      assert PeerInv(w.tun.peers[i.value], w.installs);
      if !w.tun.peers[i.value].session.valid {
        PeerChanged(w, AfterOutput(w, ip, length, ephemeral, index, stamp, accepted, now), i.value);
      } else if length <= MAX_PAYLOAD {
        PeerSentInv(w, i.value, accepted, now);
      }
    }
  }

  lemma TickPeerInv(w: World, i: nat, now: nat)
    requires Inv(w) && i < |w.tun.peers|
    ensures Inv(AfterTickPeer(w, i, now))
  {
    FreshWindow();
    hide ReplayRuns.Run;
    assert PeerInv(w.tun.peers[i], w.installs);
    if Stale(w.tun.peers[i].session, now) {
      PeerChanged(w, AfterTickPeer(w, i, now), i);
    } else if w.tun.peers[i].session.valid {
      PeerSentInv(w, i, true, now);
    }
  }

  lemma AddPeerInv(w: World, key: Term, ip: nat)
    requires Inv(w)
    ensures Inv(w.(tun := AddedPeer(w.tun, key, ip)))
  {
    FreshWindow();
  }

  lemma HandshakeResponseInv(w: World, r: Response, now: nat)
    requires Inv(w) && w.call.Busy? && w.connecting.Some?
    ensures Inv(AfterHandshakeResponse(w, r, now))
  {
    FreshWindow();
    hide Finish, ReplayRuns.Run;
    LegacyChanged(w, AfterHandshakeResponse(w, r, now));
  }

  /** Steps that touch at most the legacy session's counters, indices and flags, or wipe it */
  lemma LegacyOnlyInv(w: World, v: World)
    requires Inv(w) && v.installs == w.installs && v.tun.peers == w.tun.peers
    requires v.tun.session == WIPED
             || (v.tun.session.replay == w.tun.session.replay && v.tun.session.presented == w.tun.session.presented)
    requires v.tun.prevSession == WIPED || v.tun.prevSession == w.tun.prevSession
    ensures Inv(v)
  {
    FreshWindow();
    hide ReplayRuns.Run;
    LegacyChanged(w, v);
  }

  lemma ReceiveInitInv(w: World, m: Init, ephemeral: nat, index: nat, now: nat)
    requires Inv(w)
    ensures Inv(AfterReceiveInit(w, m, ephemeral, index, now))
  {
    hide AfterInitProcess, Inv;
    InitProcessInv(w, m, ephemeral, index, now);
    var v := AfterInitProcess(w, m, ephemeral, index, now).0;
    var i := Find(v.tun.peers, (p: Peer) => p.connected && p.session.valid);
    if i.Some? { PeerSentInv(v, i.value, true, now); }
  }

  lemma TickLegacyInv(w: World, now: nat)
    requires Inv(w)
    ensures Inv(AfterTickLegacy(w, now))
  {
    hide Inv;
    LegacyOnlyInv(w, AfterTickLegacy(w, now));
  }

  lemma ConnectInitInv(w: World, ephemeral: nat, index: nat, stamp: nat, rekey: bool)
    requires Inv(w)
    ensures Inv(AfterConnectInit(w, ephemeral, index, stamp, rekey))
  {
    hide Inv, InitState;
    LegacyOnlyInv(w, AfterConnectInit(w, ephemeral, index, stamp, rekey));
  }

  lemma ResponseInv(w: World, r: Response, now: nat)
    requires Inv(w)
    ensures Inv(AfterConnectResponse(w, r, now))
  {
    hide Inv, AfterHandshakeResponse;
    if Awaiting(w, false) { HandshakeResponseInv(w, r, now); }
  }

  lemma RekeyResponseInv(w: World, now: nat)
    requires Inv(w)
    ensures Inv(AfterRekeyResponse(w, now))
  {
    hide Inv, AfterHandshakeResponse;
    if Awaiting(w, true) && w.tun.pendingResponse.Some? {
      HandshakeResponseInv(w, w.tun.pendingResponse.value, now);
    }
  }

  lemma AttemptFailedInv(w: World, cause: Failure)
    requires Inv(w)
    ensures Inv(AfterAttemptFailed(w, cause))
  {
    hide Inv;
    LegacyOnlyInv(w, AfterAttemptFailed(w, cause));
  }

  lemma ReturnInv(w: World, now: nat)
    requires Inv(w)
    ensures Inv(AfterReturn(w, now))
  {
    hide Inv;
    LegacyOnlyInv(w, AfterReturn(w, now));
  }

  lemma SendInv(w: World, length: nat, accepted: bool, now: nat)
    requires Inv(w)
    ensures Inv(AfterSend(w, length, accepted, now))
  {
    hide Inv;
    LegacyOnlyInv(w, AfterSend(w, length, accepted, now));
  }

  lemma ConnectPassiveInv(w: World, m: Init, ephemeral: nat, index: nat, now: nat)
    requires Inv(w)
    ensures Inv(AfterConnectPassive(w, m, ephemeral, index, now))
  {
    hide Inv, AfterInitProcess;
    InitProcessInv(w, m, ephemeral, index, now);
    var v := AfterInitProcess(w, m, ephemeral, index, now).0;
    if Awaiting(w, false) { LegacyOnlyInv(v, AfterConnectPassive(w, m, ephemeral, index, now)); }
  }


  lemma ReceiveResponseInv(w: World, r: Response, now: nat)
    requires Inv(w)
    ensures Inv(AfterReceiveResponse(w, r, now))
  {
    ResponsesIgnored(w, r, now);
    hide Inv;
    LegacyOnlyInv(w, AfterReceiveResponse(w, r, now));
  }

  predicate FromReceiver(step: Step) {
    step.ReceiveInit? || step.ReceiveResponse? || step.ReceiveTransport?
  }

  predicate FromConnect(step: Step) {
    || step.ConnectInit? || step.ConnectResponse? || step.ConnectPassive? || step.RekeyResponse?
    || step.AttemptFailed? || step.Return?
  }

  lemma ReceiverInv(w: World, step: Step)
    requires Inv(w) && FromReceiver(step)
    ensures RingsShaped(w.tun) && Inv(Next(w, step))
  {
    InvShaped(w);
    hide Inv, RingsShaped, AddedPeer, AfterOutput, AfterInitProcess, AfterReceiveInit, AfterReceiveResponse,
      AfterTransport;
    hide AfterTickPeer, AfterTickLegacy, AfterConnectInit, AfterConnectResponse, AfterConnectPassive, AfterReturn;
    hide AfterSend, AfterRekeyResponse, AfterAttemptFailed;
    match step {
      case ReceiveInit(m, ephemeral, index, now) => ReceiveInitInv(w, m, ephemeral, index, now);
      case ReceiveResponse(r, now) => ReceiveResponseInv(w, r, now);
      case ReceiveTransport(receiver, counter, cipher, length, now) =>
        TransportInv(w, receiver, counter, cipher, length, now);
    }
  }

  lemma ConnectInv(w: World, step: Step)
    requires Inv(w) && FromConnect(step)
    ensures RingsShaped(w.tun) && Inv(Next(w, step))
  {
    InvShaped(w);
    hide Inv, RingsShaped, AddedPeer, AfterOutput, AfterInitProcess, AfterReceiveInit, AfterReceiveResponse,
      AfterTransport;
    hide AfterTickPeer, AfterTickLegacy, AfterConnectInit, AfterConnectResponse, AfterConnectPassive, AfterReturn;
    hide AfterSend, AfterRekeyResponse, AfterAttemptFailed;
    if step.ConnectInit? {
      ConnectInitInv(w, step.ephemeral, step.index, step.stamp, step.rekey);
    } else if step.ConnectResponse? {
      ResponseInv(w, step.response, step.now);
    } else if step.RekeyResponse? {
      RekeyResponseInv(w, step.now);
    } else if step.ConnectPassive? {
      ConnectPassiveInv(w, step.init, step.ephemeral, step.index, step.now);
    } else if step.AttemptFailed? {
      AttemptFailedInv(w, step.cause);
    } else {
      ReturnInv(w, step.now);
    }
  }

  lemma LocalInv(w: World, step: Step)
    requires Inv(w) && !FromReceiver(step) && !FromConnect(step)
    ensures RingsShaped(w.tun) && Inv(Next(w, step))
  {
    InvShaped(w);
    hide Inv, RingsShaped, AddedPeer, AfterOutput, AfterInitProcess, AfterReceiveInit, AfterReceiveResponse,
      AfterTransport;
    hide AfterTickPeer, AfterTickLegacy, AfterConnectInit, AfterConnectResponse, AfterConnectPassive, AfterReturn;
    hide AfterSend, AfterRekeyResponse, AfterAttemptFailed;
    match step {
      case AddPeer(key, ip) => AddPeerInv(w, key, ip);
      case Output(ip, length, ephemeral, index, stamp, accepted, now) =>
        OutputInv(w, ip, length, ephemeral, index, stamp, accepted, now);
      case TickPeer(i, now) => if i < |w.tun.peers| { TickPeerInv(w, i, now); }
      case TickLegacy(now) => TickLegacyInv(w, now);
      case Send(length, accepted, now) => SendInv(w, length, accepted, now);
    }
  }

  /** Every step keeps the invariant. */
  lemma NextInv(w: World, step: Step)
    requires Inv(w)
    ensures RingsShaped(w.tun) && Inv(Next(w, step))
  {
    hide Inv, RingsShaped, Next;
    if FromReceiver(step) {
      ReceiverInv(w, step);
    } else if FromConnect(step) {
      ConnectInv(w, step);
    } else {
      LocalInv(w, step);
    }
  }

  // Runs.

  /** The states along a run; `Inv` makes every step defined. */
  ghost function Run(w: World, steps: seq<Step>): (v: World)
    requires Inv(w)
    ensures Inv(v)
    decreases |steps|
  {
    if steps == [] then w
    else
      var u := Run(w, steps[..|steps| - 1]);
      NextInv(u, steps[|steps| - 1]);
      Next(u, steps[|steps| - 1])
  }

  lemma BeginInv(secret: nat, psk: Term, peerPublic: Term, keepaliveInterval: nat)
    ensures Inv(Begin(secret, psk, peerPublic, keepaliveInterval))
  {
    FreshWindow();
  }

  /** What wg_init is given */
  datatype Config = Config(secret: nat, psk: Term, peerPublic: Term, keepaliveInterval: nat)

  /** The tunnel that wg_init makes of it */
  ghost function Origin(c: Config): (w: World)
    ensures Inv(w)
  {
    BeginInv(c.secret, c.psk, c.peerPublic, c.keepaliveInterval);
    Begin(c.secret, c.psk, c.peerPublic, c.keepaliveInterval)
  }

  /**
   In every reachable state of the tunnel, for every table peer: `connected`
   holds exactly when the session is valid, a previous session is valid only
   beside a valid current one, and the index pair and key pair of each valid
   session stem from one handshake step.
   */
  lemma ReachablePeers(c: Config, steps: seq<Step>, i: nat)
    ensures var w := Run(Origin(c), steps);
            i < |w.tun.peers| ==>
              var p := w.tun.peers[i];
              && p.connected == p.session.valid
              && (p.prevSession.valid ==> p.session.valid)
              && (p.session.valid ==> InstallOf(p.session) in w.installs)
              && (p.prevSession.valid ==> InstallOf(p.prevSession) in w.installs)
              && p.session.replay == ReplayRuns.Run(p.session.presented)
              && p.prevSession.replay == ReplayRuns.Run(p.prevSession.presented)
  {
    var w := Run(Origin(c), steps);
    hide Run;
    if i < |w.tun.peers| { assert PeerInv(w.tun.peers[i], w.installs); }
  }

  /**
   A table peer's own handshake never completes: in every reachable state, a
   response that arrives is kept for wg_rekey while that runs, and otherwise
   changes nothing.
   */
  lemma ResponsesIgnored(w: World, r: Response, now: nat)
    requires Inv(w)
    ensures AfterReceiveResponse(w, r, now)
         == if w.tun.session.rekeyInProgress then w.(tun := w.tun.(pendingResponse := Some(r))) else w
  {
    NeverAwaits(w, r.receiver);
  }

  /** The valid sessions of the table carry distinct local indices. */
  predicate DistinctIndices(t: Tunnel) {
    && (forall i, j | 0 <= i < |t.peers| && 0 <= j < |t.peers| && i != j ::
          t.peers[i].session.valid && t.peers[j].session.valid
          ==> t.peers[i].session.localIndex != t.peers[j].session.localIndex)
    && (forall i, j | 0 <= i < |t.peers| && 0 <= j < |t.peers| ::
          t.peers[i].session.valid && t.peers[j].prevSession.valid
          ==> t.peers[i].session.localIndex != t.peers[j].prevSession.localIndex)
    && (forall i, j | 0 <= i < |t.peers| && 0 <= j < |t.peers| && i != j ::
          t.peers[i].prevSession.valid && t.peers[j].prevSession.valid
          ==> t.peers[i].prevSession.localIndex != t.peers[j].prevSession.localIndex)
  }

  /**
   With distinct indices, a packet for a peer's current or previous index is
   opened with exactly that session, and hence with the keys that one
   handshake installed under that index and with the window of its counters.
   */
  lemma OpensMatchingSession(w: World, i: nat)
    requires Inv(w) && DistinctIndices(w.tun) && i < |w.tun.peers|
    ensures var p := w.tun.peers[i];
            && (p.session.valid ==> Select(w.tun, p.session.localIndex) == Current(i))
            && (p.prevSession.valid ==> Select(w.tun, p.prevSession.localIndex) == Previous(i))
  {
    var p := w.tun.peers[i];
    assert PeerInv(p, w.installs);
    hide PeerInv;
    if p.session.valid {
      assert HasIndex(p, p.session.localIndex);
      var f := FindByIndex(w.tun, p.session.localIndex);
    }
    if p.prevSession.valid {
      assert HasIndex(p, p.prevSession.localIndex);
      var f := FindByIndex(w.tun, p.prevSession.localIndex);
    }
  }

  /**
   A table session delivers no payload twice while its counter's word is in
   the window: the replay window's own theorem, carried to the session.
   */
  lemma NoPayloadTwice(s: Session, counter: nat, cipher: Term, length: nat, now: nat, k: nat)
    requires WindowOwn(s) && length > 0 && |s.replay.ring| == Replay.WORDS
    requires k < |s.presented| && s.presented[k] == counter && ReplayRuns.Answer(s.presented, k)
    requires Replay.Word(s.replay.counter) < Replay.Word(counter) + Replay.WORDS
    ensures !Opened(s, counter, cipher, length, now).1
  {
    hide Replay.Step, ReplayRuns.Run;
    var calls := s.presented + [counter];
    assert calls[..|s.presented|] == s.presented;
    assert s.presented[..k] == calls[..k];
    ReplayRuns.NoReplay(calls, k, |s.presented|);
  }
}
