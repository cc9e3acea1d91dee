/**
 The tunnel of src/wireguard.c and src/wg_noise.c as a state machine: sessions,
 the peer table, and the atomic steps that change them.

 Clocks, random keys and indices, and arriving messages are inputs of a step.
 Times are in nanoseconds and wrap at 2^64, as do the sending counters.
 */
module Tunnel {
  import opened MachineInts
  import opened Options
  import opened Noise
  import Replay

  const SECOND: nat := 1_000_000_000
  const REJECT_AFTER_TIME: nat := 180
  const KEEPALIVE_TIMEOUT: nat := 10
  const MAX_PEERS: nat := 64
  /** WG_MAX_PACKET_SIZE less the transport header and the tag */
  const MAX_PAYLOAD: nat := 2048 - 16 - 16

  /**
   WgSession.  The last field is a history variable: the counters given to
   wg_counter_validate since the session's keys were installed.
   */
  datatype Session = Session(
    sendingKey: Term, receivingKey: Term, sendingCounter: nat, receivingCounter: nat,
    localIndex: nat, oldLocalIndex: nat, remoteIndex: nat, lastHandshake: nat, lastReceived: nat,
    valid: bool, rekeyInProgress: bool, replay: Replay.State,
    presented: seq<nat>)

  const WIPED: Session := Session(Zero, Zero, 0, 0, 0, 0, 0, 0, 0, false, false, Replay.INITIAL, [])

  /** WgHandshakeState */
  datatype Pending = Pending(symmetric: Symmetric, ephemeral: nat)

  const NO_PENDING: Pending := Pending(Symmetric(Zero, Zero), 0)

  /** WgPeer */
  datatype Peer = Peer(
    publicKey: Term, ip: nat, session: Session, prevSession: Session, pending: Pending,
    hsPending: bool, configured: bool, connected: bool, lastSent: nat)

  /** The fields of WgTunnel that the steps read or write */
  datatype Tunnel = Tunnel(
    secret: nat, psk: Term, peerPublic: Term, keepaliveInterval: nat,
    session: Session, prevSession: Session, peers: seq<Peer>, lastSent: nat, pendingResponse: Option<Response>)

  function Elapsed(now: nat, since: nat): nat { (now - since) % TWO_64 }

  // Lookups: the first match in table order.

  function FindFrom(peers: seq<Peer>, i: nat, p: Peer -> bool): (r: Option<nat>)
    requires i <= |peers|
    ensures r.Some? ==> i <= r.value < |peers| && p(peers[r.value]) && forall j | i <= j < r.value :: !p(peers[j])
    ensures r.None? ==> forall j | i <= j < |peers| :: !p(peers[j])
    decreases |peers| - i
  {
    if i == |peers| then None
    else if p(peers[i]) then Some(i)
    else FindFrom(peers, i + 1, p)
  }

  function Find(peers: seq<Peer>, p: Peer -> bool): Option<nat> { FindFrom(peers, 0, p) }

  predicate HasIndex(p: Peer, index: nat) {
    && p.configured
    && ((p.session.valid && p.session.localIndex == index)
      || (p.prevSession.valid && p.prevSession.localIndex == index))
  }

  function FindByIp(t: Tunnel, ip: nat): Option<nat> {
    Find(t.peers, (p: Peer) => p.configured && p.ip == ip)
  }

  function FindByIndex(t: Tunnel, index: nat): Option<nat> {
    Find(t.peers, (p: Peer) => HasIndex(p, index))
  }

  function FindByKey(t: Tunnel, key: Term): Option<nat> {
    Find(t.peers, (p: Peer) => p.configured && p.publicKey == key)
  }

  /** The session that the receive thread uses for a transport packet */
  datatype Choice = NoSession | Current(peer: nat) | Previous(peer: nat) | Legacy | LegacyPrevious

  function Select(t: Tunnel, index: nat): (c: Choice)
    ensures c.Current? || c.Previous? ==> c.peer < |t.peers|
  {
    var i := FindByIndex(t, index);
    if i.Some? && index == t.peers[i.value].session.localIndex then Current(i.value)
    else if i.Some? && t.peers[i.value].prevSession.valid && index == t.peers[i.value].prevSession.localIndex
    then Previous(i.value)
    else if index == t.session.localIndex || index == t.session.oldLocalIndex then Legacy
    else if t.prevSession.valid && index == t.prevSession.localIndex then LegacyPrevious
    else NoSession
  }

  // Sending.

  /** What leaves the tunnel under a transport key; `epoch` records how often the legacy session was wiped before */
  datatype Packet = Packet(key: Term, counter: nat, epoch: nat)

  function Sent(s: Session, epoch: nat): Packet { Packet(s.sendingKey, s.sendingCounter, epoch) }

  function Bump(s: Session): Session { s.(sendingCounter := (s.sendingCounter + 1) % TWO_64) }

  // Installing keys.

  /** The record of one handshake step that installed keys */
  datatype Install = Install(local: nat, remote: nat, sending: Term, receiving: Term)

  function Installed(s: Session, keys: Keys, local: nat, remote: nat, now: nat): Session {
    s.(sendingKey := keys.sending, receivingKey := keys.receiving, sendingCounter := 0, receivingCounter := 0,
       localIndex := local, remoteIndex := remote, lastHandshake := now, valid := true, rekeyInProgress := false,
       replay := Replay.INITIAL, presented := [])
  }

  function InstallOf(s: Session): Install { Install(s.localIndex, s.remoteIndex, s.sendingKey, s.receivingKey) }

  // wg_connect and wg_rekey.

  /** WG_MAX_TIMER_HANDSHAKES */
  const MAX_ATTEMPTS: nat := 18

  /** What the two calls return */
  datatype Err = Ok | SocketError | HandshakeError | Timeout | DecryptError

  /**
   Where the thread that calls them is: in the loop over the attempts, with the
   variables of the loop, `left` once it has been left by a break, and the index
   that wg_rekey restores
   */
  datatype Call = Idle | Busy(rekey: bool, attempt: nat, err: Err, left: bool, saved: nat)

  /** How an attempt can end without a handshake message: the first message not sent, no answer, a cookie, a stub */
  datatype Failure = NotSent | Silence | Cookie | Short

  /**
   The tunnel, the call in progress with the handshake of its attempt, and the
   history of a run: the packets sent, the keys installed, the private keys used
   and how often the legacy session was wiped.
   */
  datatype World = World(
    tun: Tunnel, call: Call, connecting: Option<Pending>,
    sent: seq<Packet>, installs: seq<Install>, used: set<nat>, wipes: nat)

  function Begin(secret: nat, psk: Term, peerPublic: Term, keepaliveInterval: nat): World {
    World(Tunnel(secret, psk, peerPublic, keepaliveInterval, WIPED, WIPED, [], 0, None),
          Idle, None, [], [], {secret}, 0)
  }

  datatype Step =
    | AddPeer(key: Term, ip: nat)
    | Output(ip: nat, length: nat, ephemeral: nat, index: nat, stamp: nat, accepted: bool, now: nat)
    | ReceiveInit(init: Init, ephemeral: nat, index: nat, now: nat)
    | ReceiveResponse(response: Response, now: nat)
    | ReceiveTransport(receiver: nat, counter: nat, cipher: Term, length: nat, now: nat)
    | TickPeer(peer: nat, now: nat)
    | TickLegacy(now: nat)
    | ConnectInit(ephemeral: nat, index: nat, stamp: nat, rekey: bool)
    | ConnectResponse(response: Response, now: nat)
    | ConnectPassive(init: Init, ephemeral: nat, index: nat, now: nat)
    | RekeyResponse(now: nat)
    | AttemptFailed(cause: Failure)
    | Return(now: nat)
    | Send(length: nat, accepted: bool, now: nat)

  // The effect of each step.

  /** wg_add_peer */
  function AddedPeer(t: Tunnel, key: Term, ip: nat): Tunnel {
    if |t.peers| >= MAX_PEERS then t
    else t.(peers := t.peers + [Peer(key, ip, WIPED, WIPED, NO_PENDING, false, true, false, 0)])
  }

  /** wg_handshake_init_peer and the handshake trigger of wg_netif_output */
  function Triggered(t: Tunnel, i: nat, ephemeral: nat, index: nat, stamp: nat): Tunnel
    requires i < |t.peers|
  {
    var p := t.peers[i];
    var s := p.session.(oldLocalIndex := p.session.localIndex, localIndex := index);
    var state := InitState(t.secret, p.publicKey, ephemeral, index, stamp);
    t.(peers := t.peers[i := p.(session := s, pending := Pending(state, ephemeral), hsPending := true)])
  }

  /**
   A packet or keepalive from a table peer's session.  The nonce is spent whether
   or not the socket accepts the packet; only a packet that it refuses leaves the
   time of the last one.
   */
  function PeerSent(w: World, i: nat, accepted: bool, now: nat): World
    requires i < |w.tun.peers|
  {
    var p := w.tun.peers[i];
    var q := p.(session := Bump(p.session), lastSent := if accepted then now else p.lastSent);
    w.(tun := w.tun.(peers := w.tun.peers[i := q]), sent := w.sent + [Sent(p.session, w.wipes)])
  }

  /** A packet or keepalive from the legacy session */
  function LegacySent(w: World, accepted: bool, now: nat): World {
    w.(tun := w.tun.(session := Bump(w.tun.session), lastSent := if accepted then now else w.tun.lastSent),
       sent := w.sent + [Sent(w.tun.session, w.wipes)])
  }

  /** wg_netif_output: send, or start a handshake when there is no session to send on */
  function AfterOutput(w: World, ip: nat, length: nat, ephemeral: nat, index: nat, stamp: nat, accepted: bool,
          now: nat): World {
    match FindByIp(w.tun, ip)
    case None => w
    case Some(i) =>
      if !w.tun.peers[i].connected || !w.tun.peers[i].session.valid then
        w.(tun := Triggered(w.tun, i, ephemeral, index, stamp), used := w.used + {ephemeral})
      else if length > MAX_PAYLOAD then w
      else PeerSent(w, i, accepted, now)
  }

  /** Rotation on a passive handshake: a valid session becomes the previous one. */
  function Rotated(session: Session, prev: Session): Session { if session.valid then session else prev }

  /** wg_handshake_init_process: the responder's side, into the peer's session or the legacy one */
  function AfterInitProcess(w: World, m: Init, ephemeral: nat, index: nat, now: nat): (r: (World, bool))
    ensures r.0.call == w.call && r.0.connecting == w.connecting
  {
    var v := w.(used := w.used + {ephemeral});
    match Respond(w.tun.secret, w.tun.psk, m, ephemeral, index)
    case None => (v, false)
    case Some(a) =>
      var keys := ResponderKeys(a.outcome);
      match FindByKey(w.tun, a.peerStatic)
      case Some(i) =>
        var p := w.tun.peers[i];
        var s := Installed(p.session, keys, index, m.sender, now);
        var q := p.(session := s, prevSession := Rotated(p.session, p.prevSession), connected := true);
        (v.(tun := w.tun.(peers := w.tun.peers[i := q]), installs := w.installs + [InstallOf(s)]), true)
      case None =>
        var s := Installed(w.tun.session, keys, index, m.sender, now);
        (v.(tun := w.tun.(peerPublic := a.peerStatic, session := s,
                          prevSession := Rotated(w.tun.session, w.tun.prevSession)),
            installs := w.installs + [InstallOf(s)]), true)
  }

  /** The receive thread on a first message: respond, then one keepalive to the first connected peer */
  function AfterReceiveInit(w: World, m: Init, ephemeral: nat, index: nat, now: nat): World {
    var (v, ok) := AfterInitProcess(w, m, ephemeral, index, now);
    var i := Find(v.tun.peers, (p: Peer) => p.connected && p.session.valid);
    if ok && i.Some? then PeerSent(v, i.value, true, now) else v
  }

  /** The guard under which the receive thread completes a table peer's own handshake */
  predicate AwaitsResponse(p: Peer, receiver: nat) {
    p.connected && !p.session.valid && p.session.localIndex == receiver
  }

  /** wg_handshake_init_process_response, for a response that passed the index check */
  function AfterPeerResponse(w: World, i: nat, r: Response, now: nat): World
    requires i < |w.tun.peers|
  {
    var p := w.tun.peers[i];
    var (s, ok) := Finish(w.tun.secret, w.tun.psk, p.pending.ephemeral, p.pending.symmetric, r);
    if ok then
      var n := Installed(p.session, InitiatorKeys(s), p.session.localIndex, r.sender, now)
               .(rekeyInProgress := p.session.rekeyInProgress);
      w.(tun := w.tun.(peers := w.tun.peers[i := p.(session := n, hsPending := false, pending := NO_PENDING)]),
         installs := w.installs + [InstallOf(n)])
    else
      var q := p.(session := p.session.(remoteIndex := r.sender), pending := p.pending.(symmetric := s));
      w.(tun := w.tun.(peers := w.tun.peers[i := q]))
  }

  /** The receive thread on a response: kept for wg_rekey, or matched against the table */
  function AfterReceiveResponse(w: World, r: Response, now: nat): World {
    if w.tun.session.rekeyInProgress then w.(tun := w.tun.(pendingResponse := Some(r)))
    else
      match Find(w.tun.peers, (p: Peer) => AwaitsResponse(p, r.receiver))
      case None => w
      case Some(i) => AfterPeerResponse(w, i, r, now)
  }

  /** A transport packet on a session: the session afterwards, and whether the packet was delivered */
  function Opened(s: Session, counter: nat, cipher: Term, length: nat, now: nat): (Session, bool)
    requires |s.replay.ring| == Replay.WORDS
  {
    if length == 0 then (s.(lastReceived := now), true)
    else if Open(s.receivingKey, counter, cipher, Empty).None? then (s, false)
    else
      var (replay, fresh_) := Replay.Step(s.replay, counter);
      var t := s.(replay := replay, presented := s.presented + [counter]);
      if fresh_ then (t.(lastReceived := now, receivingCounter := counter + 1), true) else (t, false)
  }

  predicate Expired(s: Session, now: nat) {
    Elapsed(now, s.lastHandshake) >= REJECT_AFTER_TIME * SECOND
  }

  /** A transport packet on a table peer's current session */
  function OnCurrent(p: Peer, counter: nat, cipher: Term, length: nat, now: nat): Peer
    requires |p.session.replay.ring| == Replay.WORDS
  {
    if Expired(p.session, now) then p
    else
      var (s, delivered) := Opened(p.session, counter, cipher, length, now);
      p.(session := s, connected := p.connected || delivered, lastSent := if length == 0 then now else p.lastSent)
  }

  /** A transport packet on a table peer's previous session, which is wiped when it has expired */
  function OnPrevious(p: Peer, counter: nat, cipher: Term, length: nat, now: nat): Peer
    requires |p.prevSession.replay.ring| == Replay.WORDS
  {
    if Expired(p.prevSession, now) then p.(prevSession := WIPED)
    else
      var (s, delivered) := Opened(p.prevSession, counter, cipher, length, now);
      p.(prevSession := s, connected := p.connected || delivered, lastSent := if length == 0 then now else p.lastSent)
  }

  /** A transport packet on the session that was chosen */
  function Applied(t: Tunnel, c: Choice, counter: nat, cipher: Term, length: nat, now: nat): Tunnel
    requires RingsShaped(t) && (c.Current? || c.Previous? ==> c.peer < |t.peers|)
  {
    match c
    case NoSession => t
    case Current(i) => t.(peers := t.peers[i := OnCurrent(t.peers[i], counter, cipher, length, now)])
    case Previous(i) => t.(peers := t.peers[i := OnPrevious(t.peers[i], counter, cipher, length, now)])
    case Legacy =>
      if Expired(t.session, now) then t
      else t.(session := Opened(t.session, counter, cipher, length, now).0)
    case LegacyPrevious =>
      if Expired(t.prevSession, now) then t.(prevSession := WIPED)
      else t.(prevSession := Opened(t.prevSession, counter, cipher, length, now).0)
  }

  /** The receive thread on a transport packet */
  function AfterTransport(t: Tunnel, receiver: nat, counter: nat, cipher: Term, length: nat, now: nat): Tunnel
    requires RingsShaped(t)
  {
    Applied(t, Select(t, receiver), counter, cipher, length, now)
  }

  /** Every window is one that WgReplayCounter can hold. */
  predicate RingsShaped(t: Tunnel) {
    && Replay.Fits(t.session.replay) && Replay.Fits(t.prevSession.replay)
    && forall i | 0 <= i < |t.peers| ::
      Replay.Fits(t.peers[i].session.replay) && Replay.Fits(t.peers[i].prevSession.replay)
  }

  /** The session behind a choice */
  function SessionOf(t: Tunnel, c: Choice): Session
    requires !c.NoSession? && (c.Current? || c.Previous? ==> c.peer < |t.peers|)
  {
    match c
    case Current(i) => t.peers[i].session
    case Previous(i) => t.peers[i].prevSession
    case Legacy => t.session
    case LegacyPrevious => t.prevSession
  }

  /** The receive thread hands the payload of a transport packet to the consumer. */
  predicate Delivers(t: Tunnel, receiver: nat, counter: nat, cipher: Term, length: nat, now: nat)
    requires RingsShaped(t)
  {
    var c := Select(t, receiver);
    && !c.NoSession? && length > 0
    && !Expired(SessionOf(t, c), now) && Opened(SessionOf(t, c), counter, cipher, length, now).1
  }

  predicate Stale(s: Session, now: nat) {
    s.valid && Elapsed(now, s.lastHandshake) >= 3 * REJECT_AFTER_TIME * SECOND
  }

  /** One turn of the keepalive thread's loop over the peers */
  function AfterTickPeer(w: World, i: nat, now: nat): World
    requires i < |w.tun.peers|
  {
    var p := w.tun.peers[i];
    if !p.configured then w
    else if Stale(p.session, now) then
      w.(tun := w.tun.(peers := w.tun.peers[i := p.(session := WIPED, prevSession := WIPED, connected := false)]))
    else if !p.session.valid then w
    else if p.session.lastReceived > 0 && Elapsed(now, p.lastSent) >= KEEPALIVE_TIMEOUT * SECOND
    then PeerSent(w, i, true, now)
    else if w.tun.keepaliveInterval > 0 && Elapsed(now, p.lastSent) >= w.tun.keepaliveInterval * SECOND
    then PeerSent(w, i, true, now)
    else w
  }

  function AfterTickLegacy(w: World, now: nat): World {
    if Stale(w.tun.session, now)
    then w.(tun := w.tun.(session := WIPED, prevSession := WIPED), wipes := w.wipes + 1)
    else w
  }

  /** The call can start, or go into its next attempt. */
  predicate MayAttempt(w: World, rekey: bool) {
    || w.call.Idle?
    || (w.call.rekey == rekey && w.connecting.None? && !w.call.left && w.call.attempt < MAX_ATTEMPTS)
  }

  /** The call's variables when wg_handshake_init has returned WG_OK, as it always does */
  function Attempting(w: World, rekey: bool): Call {
    if w.call.Idle? then Busy(rekey, 1, Ok, false, w.tun.session.localIndex)
    else w.call.(attempt := w.call.attempt + 1, err := Ok)
  }

  /** An attempt begins with wg_handshake_init; wg_rekey first forgets a response it was left */
  function AfterConnectInit(w: World, ephemeral: nat, index: nat, stamp: nat, rekey: bool): World {
    if !MayAttempt(w, rekey) then w
    else
      var s := w.tun.session;
      var state := InitState(w.tun.secret, w.tun.peerPublic, ephemeral, index, stamp);
      w.(tun := w.tun.(session := s.(oldLocalIndex := s.localIndex, localIndex := index, rekeyInProgress := true),
                       pendingResponse := if rekey then None else w.tun.pendingResponse),
         call := Attempting(w, rekey), connecting := Some(Pending(state, ephemeral)), used := w.used + {ephemeral})
  }

  /** An attempt of wg_connect or of wg_rekey is under way. */
  predicate Awaiting(w: World, rekey: bool) { w.call.Busy? && w.call.rekey == rekey && w.connecting.Some? }

  /** The attempt is over: `err` is what the code has by then, and `left` says whether it leaves the loop. */
  function Ended(w: World, err: Err, left: bool): World
    requires w.call.Busy?
  {
    w.(call := w.call.(err := err, left := left), connecting := None)
  }

  /** wg_handshake_response */
  function AfterHandshakeResponse(w: World, r: Response, now: nat): World
    requires w.call.Busy? && w.connecting.Some?
  {
    if r.receiver != w.tun.session.localIndex then Ended(w, HandshakeError, false)
    else
      var s := w.tun.session.(remoteIndex := r.sender);
      var (final, ok) :=
        Finish(w.tun.secret, w.tun.psk, w.connecting.value.ephemeral, w.connecting.value.symmetric, r);
      if ok then
        var prev := if s.valid then s.(localIndex := s.oldLocalIndex) else w.tun.prevSession;
        var n := Installed(s, InitiatorKeys(final), s.localIndex, r.sender, now);
        Ended(w.(tun := w.tun.(session := n, prevSession := prev), installs := w.installs + [InstallOf(n)]), Ok, true)
      else Ended(w.(tun := w.tun.(session := s)), DecryptError, false)
  }

  /** wg_connect receiving a response */
  function AfterConnectResponse(w: World, r: Response, now: nat): World {
    if Awaiting(w, false) then AfterHandshakeResponse(w, r, now) else w
  }

  /** wg_connect receiving a first message instead: respond; a refused one ends the attempt with `err` as it is */
  function AfterConnectPassive(w: World, m: Init, ephemeral: nat, index: nat, now: nat): World {
    if !Awaiting(w, false) then w
    else
      var (v, ok) := AfterInitProcess(w, m, ephemeral, index, now);
      if ok then Ended(v, Ok, true) else Ended(v, v.call.err, false)
  }

  /** wg_rekey on the response that the receive thread kept for it */
  function AfterRekeyResponse(w: World, now: nat): World {
    if Awaiting(w, true) && w.tun.pendingResponse.Some?
    then AfterHandshakeResponse(w, w.tun.pendingResponse.value, now) else w
  }

  /** What an attempt without a handshake message does to `err`; wg_rekey leaves it alone on a cookie. */
  function FailureErr(call: Call, cause: Failure): Err
    requires call.Busy?
  {
    match cause
    case NotSent => SocketError
    case Silence => Timeout
    case Cookie => if call.rekey then call.err else Timeout
    case Short => HandshakeError
  }

  /** wg_rekey runs out of time only if no response has been kept. */
  predicate MayFail(w: World, cause: Failure) {
    && w.call.Busy? && w.connecting.Some?
    && (cause.Silence? && w.call.rekey ==> w.tun.pendingResponse.None?)
  }

  function AfterAttemptFailed(w: World, cause: Failure): World {
    if MayFail(w, cause) then Ended(w, FailureErr(w.call, cause), cause.NotSent?) else w
  }

  /** The loop is over, by a break or because the attempts are used up. */
  predicate MayReturn(w: World) {
    w.call.Busy? && w.connecting.None? && (w.call.left || w.call.attempt >= MAX_ATTEMPTS)
  }

  /** The end of the call: a keepalive if `err` is WG_OK; otherwise the session's flag, and for wg_rekey its index */
  function AfterReturn(w: World, now: nat): World {
    if !MayReturn(w) then w
    else if w.call.err == Ok then LegacySent(w.(call := Idle), true, now)
    else
      var s := w.tun.session.(rekeyInProgress := false);
      w.(tun := w.tun.(session := if w.call.rekey then s.(localIndex := w.call.saved) else s), call := Idle)
  }

  /** wg_send */
  function AfterSend(w: World, length: nat, accepted: bool, now: nat): World {
    var s := w.tun.session;
    if !s.valid || Expired(s, now) || s.sendingCounter >= Replay.LIMIT || length > MAX_PAYLOAD then w
    else LegacySent(w, accepted, now)
  }

  function Next(w: World, step: Step): World
    requires RingsShaped(w.tun)
  {
    match step
    case AddPeer(key, ip) => w.(tun := AddedPeer(w.tun, key, ip))
    case Output(ip, length, ephemeral, index, stamp, accepted, now) =>
      AfterOutput(w, ip, length, ephemeral, index, stamp, accepted, now)
    case ReceiveInit(m, ephemeral, index, now) => AfterReceiveInit(w, m, ephemeral, index, now)
    case ReceiveResponse(r, now) => AfterReceiveResponse(w, r, now)
    case ReceiveTransport(receiver, counter, cipher, length, now) =>
      w.(tun := AfterTransport(w.tun, receiver, counter, cipher, length, now))
    case TickPeer(i, now) => if i < |w.tun.peers| then AfterTickPeer(w, i, now) else w
    case TickLegacy(now) => AfterTickLegacy(w, now)
    case ConnectInit(ephemeral, index, stamp, rekey) => AfterConnectInit(w, ephemeral, index, stamp, rekey)
    case ConnectResponse(r, now) => AfterConnectResponse(w, r, now)
    case ConnectPassive(m, ephemeral, index, now) => AfterConnectPassive(w, m, ephemeral, index, now)
    case RekeyResponse(now) => AfterRekeyResponse(w, now)
    case AttemptFailed(cause) => AfterAttemptFailed(w, cause)
    case Return(now) => AfterReturn(w, now)
    case Send(length, accepted, now) => AfterSend(w, length, accepted, now)
  }
}
