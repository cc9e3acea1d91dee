/**
 The tunnel object of src/wireguard.c in its own form: a peer table searched by
 loops and sessions updated field by field.  Every operation is a step of the
 state machine in module Tunnel, so what holds of all runs there holds here.
 */
module Device {
  import opened Options
  import opened Noise
  import opened Tunnel
  import Handshake
  import Replay
  import opened MachineInts
  import TunnelInvariants

  /** A search that stops at the first match finds what Find does. */
  lemma FirstFound(peers: seq<Peer>, p: Peer -> bool, i: nat)
    requires i <= |peers| && forall j | 0 <= j < i :: !p(peers[j])
    requires i < |peers| ==> p(peers[i])
    ensures Find(peers, p) == if i < |peers| then Some(i) else None
  {}

  /** The tunnel with another session in the place that the receive thread's `sess` points at */
  function With(t: Tunnel, sess: Choice, s: Session): Tunnel
    requires sess.Current? || sess.Previous? ==> sess.peer < |t.peers|
  {
    match sess
    case NoSession => t
    case Current(i) => t.(peers := t.peers[i := t.peers[i].(session := s)])
    case Previous(i) => t.(peers := t.peers[i := t.peers[i].(prevSession := s)])
    case Legacy => t.(session := s)
    case LegacyPrevious => t.(prevSession := s)
  }

  /** The tunnel with the session's peer, if it has one, connected; after an empty packet also with a new time */
  function Touched(t: Tunnel, sess: Choice, empty: bool, now: nat): Tunnel
    requires sess.Current? || sess.Previous? ==> sess.peer < |t.peers|
  {
    if sess.Current? || sess.Previous? then
      var p := t.peers[sess.peer];
      t.(peers := t.peers[sess.peer := p.(connected := true, lastSent := if empty then now else p.lastSent)])
    else t
  }

  /** On a session that has expired, nothing happens, except that a previous one is wiped. */
  lemma Rejected(t: Tunnel, sess: Choice, counter: nat, cipher: Term, length: nat, now: nat)
    requires RingsShaped(t) && !sess.NoSession? && (sess.Current? || sess.Previous? ==> sess.peer < |t.peers|)
    requires Expired(SessionOf(t, sess), now)
    ensures Applied(t, sess, counter, cipher, length, now)
         == if sess.Previous? || sess.LegacyPrevious? then With(t, sess, WIPED) else t
  {
    hide Expired, Opened;
    if sess.Current? { assert t.peers[sess.peer := t.peers[sess.peer]] == t.peers; }
  }

  /** On one that has not, the session's part of the work and the peer's make up the whole. */
  lemma Passed(t: Tunnel, sess: Choice, counter: nat, cipher: Term, length: nat, now: nat)
    requires RingsShaped(t) && !sess.NoSession? && (sess.Current? || sess.Previous? ==> sess.peer < |t.peers|)
    requires !Expired(SessionOf(t, sess), now)
    ensures var (s, ok) := Opened(SessionOf(t, sess), counter, cipher, length, now);
      Applied(t, sess, counter, cipher, length, now)
      == if ok then Touched(With(t, sess, s), sess, length == 0, now) else With(t, sess, s)
  {
    OpenedEmpty(SessionOf(t, sess), counter, cipher, length, now);
    hide Expired, Opened;
  }

  lemma Nowhere(t: Tunnel, counter: nat, cipher: Term, length: nat, now: nat)
    requires RingsShaped(t)
    ensures Applied(t, NoSession, counter, cipher, length, now) == t
  {}

  lemma OpenedEmpty(s: Session, counter: nat, cipher: Term, length: nat, now: nat)
    requires |s.replay.ring| == Replay.WORDS
    ensures length == 0 ==> Opened(s, counter, cipher, length, now) == (s.(lastReceived := now), true)
  {}

  // A call of wg_connect or wg_rekey without pause.

  /** What an attempt meets: no message to process, a first message of the other side, or a response */
  datatype Reply = Nothing(cause: Failure) | First(init: Init, ephemeral: nat, index: nat) | Answer(response: Response)

  datatype Attempt = Attempt(ephemeral: nat, index: nat, stamp: nat, reply: Reply, now: nat)

  /** During wg_rekey it is the receive thread that meets it. */
  function Replied(w: World, reply: Reply, now: nat, rekey: bool): World {
    match reply
    case Nothing(cause) => AfterAttemptFailed(w, cause)
    case First(m, ephemeral, index) =>
      if rekey then AfterAttemptFailed(AfterReceiveInit(w, m, ephemeral, index, now), Silence)
      else AfterConnectPassive(w, m, ephemeral, index, now)
    case Answer(r) =>
      if rekey then AfterRekeyResponse(AfterReceiveResponse(w, r, now), now) else AfterConnectResponse(w, r, now)
  }

  function Attempted(w: World, a: Attempt, rekey: bool): World {
    if !MayAttempt(w, rekey) then w
    else Replied(AfterConnectInit(w, a.ephemeral, a.index, a.stamp, rekey), a.reply, a.now, rekey)
  }

  function AttemptedAll(w: World, script: seq<Attempt>, k: nat, rekey: bool): World
    requires k <= |script|
  {
    if k == 0 then w else Attempted(AttemptedAll(w, script, k - 1, rekey), script[k - 1], rekey)
  }

  lemma NoneAttempted(w: World, script: seq<Attempt>, rekey: bool)
    ensures AttemptedAll(w, script, 0, rekey) == w
  {}

  lemma AttemptedNext(w: World, script: seq<Attempt>, k: nat, rekey: bool)
    requires k < |script|
    ensures AttemptedAll(w, script, k + 1, rekey) == Attempted(AttemptedAll(w, script, k, rekey), script[k], rekey)
  {}

  /** Once the loop has been left, the rest of the script is not used. */
  lemma {:induction false} LeftAll(w: World, script: seq<Attempt>, k: nat, n: nat, rekey: bool)
    requires k <= n <= |script|
    requires k < n ==> !MayAttempt(AttemptedAll(w, script, k, rekey), rekey)
    ensures AttemptedAll(w, script, n, rekey) == AttemptedAll(w, script, k, rekey)
  {
    hide Replied, MayAttempt, AfterConnectInit;
    if k < n {
      if k < n - 1 { LeftAll(w, script, k, n - 1, rekey); }
      AttemptedNext(w, script, n - 1, rekey);
    }
  }

  lemma InitReceived(w: World, m: Init, ephemeral: nat, index: nat, now: nat)
    ensures var v := AfterReceiveInit(w, m, ephemeral, index, now);
      v.call == w.call && v.connecting == w.connecting && v.tun.pendingResponse == w.tun.pendingResponse
  {
    hide Respond;
  }

  /** An attempt ends, whatever it meets. */
  lemma RepliedKeeps(w: World, reply: Reply, now: nat, rekey: bool)
    requires Awaiting(w, rekey) && (rekey ==> w.tun.session.rekeyInProgress && w.tun.pendingResponse.None?)
    ensures var v := Replied(w, reply, now, rekey);
      v.call.Busy? && v.call == w.call.(err := v.call.err, left := v.call.left) && v.connecting.None?
  {
    if reply.First? { InitReceived(w, reply.init, reply.ephemeral, reply.index, now); }
    hide AfterInitProcess, AfterReceiveInit, Finish;
  }

  /** Between two attempts, with the loop's variables as the code has them */
  predicate InLoop(w: World, call: Call, err: Err, left: bool) {
    call.Busy? && w.call == call.(err := err, left := left) && w.connecting.None?
  }
  /** WgTunnel.  The ghost fields record the run so far, and the local variables of wg_connect and wg_rekey. */
  class Device {
    var secret: nat
    var psk: Term
    var peerPublic: Term
    var keepaliveInterval: nat
    var session: Session
    var prevSession: Session
    const peers: array<Peer>
    var peerCount: nat
    var lastSent: nat
    var pendingResponse: Option<Response>
    ghost var call: Call
    ghost var connecting: Option<Pending>
    ghost var sent: seq<Packet>
    ghost var installs: seq<Install>
    ghost var used: set<nat>
    ghost var wipes: nat

    ghost predicate Valid()
      reads this`peerCount, peers
    {
      peers.Length == MAX_PEERS && peerCount <= MAX_PEERS
    }

    ghost function Table(): seq<Peer>
      requires Valid()
      reads this`peerCount, peers
    {
      peers[..peerCount]
    }

    ghost function View(): World
      requires Valid()
      reads this, peers
    {
      World(Tunnel(secret, psk, peerPublic, keepaliveInterval, session, prevSession, Table(), lastSent,
        pendingResponse),
            call, connecting, sent, installs, used, wipes)
    }

    /** wg_init */
    constructor (key: nat, shared: Term, peer: Term, interval: nat)
      ensures Valid() && fresh(peers) && View() == Begin(key, shared, peer, interval)
    {
      secret, psk, peerPublic, keepaliveInterval := key, shared, peer, interval;
      session, prevSession, lastSent, pendingResponse := WIPED, WIPED, 0, None;
      peers := new Peer[MAX_PEERS](_ => Peer(Zero, 0, WIPED, WIPED, NO_PENDING, false, false, false, 0));
      peerCount := 0;
      call, connecting, sent, installs, used, wipes := Idle, None, [], [], {key}, 0;
    }

    // The table.

    /** An assignment to one entry of the table */
    method SetPeer(i: nat, p: Peer)
      requires Valid() && i < peerCount
      modifies peers
      ensures Valid() && Table() == old(Table())[i := p]
      ensures View() == old(View()).(tun := old(View()).tun.(peers := old(Table())[i := p]))
    {
      peers[i] := p;
    }

    /** wg_add_peer */
    method AddPeer(key: Term, ip: nat)
      requires Valid()
      modifies this`peerCount, peers
      ensures Valid() && View() == old(View()).(tun := AddedPeer(old(View()).tun, key, ip))
    {
      if peerCount >= MAX_PEERS { return; }
      peers[peerCount] := Peer(key, ip, WIPED, WIPED, NO_PENDING, false, true, false, 0);
      peerCount := peerCount + 1;
      assert Table() == old(Table()) + [peers[peerCount - 1]];
    }

    /** wg_find_peer_by_ip */
    method FindPeerByIp(ip: nat) returns (r: Option<nat>)
      requires Valid()
      ensures r == FindByIp(View().tun, ip)
    {
      var i := 0;
      while i < peerCount && !(peers[i].configured && peers[i].ip == ip)
        invariant i <= peerCount
        invariant forall j | 0 <= j < i :: !(peers[j].configured && peers[j].ip == ip)
      {
        i := i + 1;
      }
      FirstFound(Table(), (p: Peer) => p.configured && p.ip == ip, i);
      r := if i < peerCount then Some(i) else None;
    }

    /** wg_find_peer_by_local_index */
    method FindPeerByIndex(index: nat) returns (r: Option<nat>)
      requires Valid()
      ensures r == FindByIndex(View().tun, index)
    {
      var i := 0;
      while i < peerCount
        invariant i <= peerCount
        invariant forall j | 0 <= j < i :: !HasIndex(peers[j], index)
      {
        var p := peers[i];
        if p.configured && p.session.valid && p.session.localIndex == index { break; }
        if p.configured && p.prevSession.valid && p.prevSession.localIndex == index { break; }
        i := i + 1;
      }
      FirstFound(Table(), (p: Peer) => HasIndex(p, index), i);
      r := if i < peerCount then Some(i) else None;
    }

    /** wg_find_peer_by_public_key */
    method FindPeerByKey(key: Term) returns (r: Option<nat>)
      requires Valid()
      ensures r == FindByKey(View().tun, key)
    {
      var i := 0;
      while i < peerCount && !(peers[i].configured && peers[i].publicKey == key)
        invariant i <= peerCount
        invariant forall j | 0 <= j < i :: !(peers[j].configured && peers[j].publicKey == key)
      {
        i := i + 1;
      }
      FirstFound(Table(), (p: Peer) => p.configured && p.publicKey == key, i);
      r := if i < peerCount then Some(i) else None;
    }

    // Sending.

    /** wg_send_keepalive_to_peer, and the packet of wg_send_to_peer, which the socket may refuse */
    method SendToPeer(i: nat, accepted: bool, now: nat)
      requires Valid() && i < peerCount
      modifies this`sent, peers
      ensures Valid() && View() == PeerSent(old(View()), i, accepted, now)
    {
      var counter := peers[i].session.sendingCounter;
      peers[i] := peers[i].(session := peers[i].session.(sendingCounter := (counter + 1) % TWO_64));
      sent := sent + [Packet(peers[i].session.sendingKey, counter, wipes)];
      if accepted { peers[i] := peers[i].(lastSent := now); }
      assert Table() == old(Table())[i := peers[i]];
    }

    /** wg_send_keepalive, and the packet of wg_send */
    method SendLegacy(accepted: bool, now: nat)
      requires Valid()
      modifies this`session, this`sent, this`lastSent
      ensures Valid() && View() == LegacySent(old(View()), accepted, now)
    {
      var counter := session.sendingCounter;
      session := session.(sendingCounter := (counter + 1) % TWO_64);
      sent := sent + [Packet(session.sendingKey, counter, wipes)];
      if accepted { lastSent := now; }
    }

    /** wg_send */
    method Send(length: nat, accepted: bool, now: nat) returns (ok: bool)
      requires Valid()
      modifies this`session, this`sent, this`lastSent
      ensures Valid() && View() == AfterSend(old(View()), length, accepted, now)
      ensures ok <==> accepted && |sent| > |old(sent)|
    {
      if !session.valid { return false; }
      if Elapsed(now, session.lastHandshake) >= REJECT_AFTER_TIME * SECOND || session.sendingCounter >= Replay.LIMIT {
        return false;
      }
      if 16 + length + 16 > 2048 { return false; }
      SendLegacy(accepted, now);
      ok := accepted;
    }

    /** wg_netif_output */
    method Output(ip: nat, length: nat, ephemeral: nat, index: nat, stamp: nat, accepted: bool, now: nat)
      requires Valid()
      modifies this`sent, this`used, peers
      ensures Valid() && View() == AfterOutput(old(View()), ip, length, ephemeral, index, stamp, accepted, now)
    {
      var found := FindPeerByIp(ip);
      if found.None? { return; }
      var i := found.value;
      if !peers[i].connected || !peers[i].session.valid {
        InitiateTo(i, ephemeral, index, stamp);
      } else if 16 + length + 16 <= 2048 {
        SendToPeer(i, accepted, now);
      }
    }

    /** wg_handshake_init_peer, and the state kept for the response */
    method InitiateTo(i: nat, ephemeral: nat, index: nat, stamp: nat)
      requires Valid() && i < peerCount
      modifies this`used, peers
      ensures Valid()
      ensures View() == old(View()).(tun := Triggered(old(View()).tun, i, ephemeral, index, stamp),
        used := old(used) + {ephemeral})
    {
      hide InitState, InitMessage;
      used := used + {ephemeral};
      var s := peers[i].session;
      peers[i] := peers[i].(session := s.(oldLocalIndex := s.localIndex, localIndex := index));
      var m, symmetric := Handshake.Initiate(secret, peers[i].publicKey, ephemeral, index, stamp);
      peers[i] := peers[i].(pending := Pending(symmetric, ephemeral), hsPending := true);
      assert Table() == old(Table())[i := peers[i]];
    }

    // Handshakes.

    /** wg_handshake_init_process: rotate and install, in the peer's session or the legacy one */
    method InitProcess(m: Init, ephemeral: nat, index: nat, now: nat) returns (ok: bool)
      requires Valid()
      modifies this`used, this`installs, this`peerPublic, this`session, this`prevSession, peers
      ensures Valid() && (View(), ok) == AfterInitProcess(old(View()), m, ephemeral, index, now)
    {
      used := used + {ephemeral};
      var a := Handshake.Answer(secret, psk, m, ephemeral, index);
      if a.None? { return false; }
      var keys := ResponderKeys(a.value.outcome);
      var found := FindPeerByKey(a.value.peerStatic);
      if found.None? {
        InstallLegacy(a.value.peerStatic, keys, index, m.sender, now);
      } else {
        InstallAt(found.value, keys, index, m.sender, now);
      }
      ok := true;
    }

    method InstallLegacy(peer: Term, keys: Keys, local: nat, remote: nat, now: nat)
      requires Valid()
      modifies this`installs, this`peerPublic, this`session, this`prevSession
      ensures Valid()
      ensures var s := Installed(old(session), keys, local, remote, now);
        View() == old(View()).(
          tun := old(View()).tun.(peerPublic := peer, session := s,
            prevSession := Rotated(old(session), old(prevSession))),
          installs := old(installs) + [InstallOf(s)])
    {
      hide Installed, InstallOf;
      hide Rotated;
      peerPublic := peer;
      Rotate();
      session := Overwritten(session, keys, local, remote, now);
      installs := installs + [InstallOf(session)];
    }

    method Rotate()
      modifies this`prevSession
      ensures prevSession == Rotated(session, old(prevSession))
    {
      if session.valid { prevSession := session; }
    }

    method InstallAt(i: nat, keys: Keys, local: nat, remote: nat, now: nat)
      requires Valid() && i < peerCount
      modifies this`installs, peers
      ensures Valid()
      ensures var p := old(Table())[i];
        var s := Installed(p.session, keys, local, remote, now);
        var q := p.(session := s, prevSession := Rotated(p.session, p.prevSession), connected := true);
        View() == old(View()).(tun := old(View()).tun.(peers := old(Table())[i := q]),
          installs := old(installs) + [InstallOf(s)])
    {
      if peers[i].session.valid { peers[i] := peers[i].(prevSession := peers[i].session); }
      peers[i] := peers[i].(session := Overwritten(peers[i].session, keys, local, remote, now));
      peers[i] := peers[i].(connected := true);
      installs := installs + [InstallOf(peers[i].session)];
      assert Table() == old(Table())[i := peers[i]];
    }

    /** wg_handshake_init, at the start of an attempt */
    method HandshakeInit(ephemeral: nat, index: nat, stamp: nat, ghost rekey: bool) returns (m: Init, state: Pending)
      requires Valid() && MayAttempt(View(), rekey) && (rekey ==> pendingResponse.None?)
      modifies this`used, this`session, this`call, this`connecting
      ensures Valid() && View() == AfterConnectInit(old(View()), ephemeral, index, stamp, rekey)
      ensures m == InitMessage(secret, peerPublic, ephemeral, index, stamp) && connecting == Some(state)
    {
      hide InitState, InitMessage;
      call := Attempting(View(), rekey);
      var symmetric;
      m, symmetric := Handshake.Initiate(secret, peerPublic, ephemeral, index, stamp);
      used := used + {ephemeral};
      NewIndex(index);
      state := Pending(symmetric, ephemeral);
      connecting := Some(state);
    }

    method NewIndex(index: nat)
      modifies this`session
      ensures session == old(session).(oldLocalIndex := old(session).localIndex, localIndex := index,
        rekeyInProgress := true)
    {
      session := session.(oldLocalIndex := session.localIndex);
      session := session.(localIndex := index);
      session := session.(rekeyInProgress := true);
    }

    /** wg_handshake_response */
    method HandshakeResponse(r: Response, state: Pending, now: nat) returns (err: Err)
      requires Valid() && call.Busy? && connecting == Some(state)
      modifies this`session, this`prevSession, this`call, this`connecting, this`installs
      ensures Valid() && View() == AfterHandshakeResponse(old(View()), r, now)
      ensures call.Busy? && err == call.err && (call.left <==> err == Ok)
    {
      hide Finish, Installed, InstallOf;
      if r.receiver != session.localIndex {
        Over(HandshakeError, false);
        return HandshakeError;
      }
      session := session.(remoteIndex := r.sender);
      var symmetric, ok := Handshake.Complete(secret, psk, state.ephemeral, state.symmetric, r);
      if !ok {
        Over(DecryptError, false);
        return DecryptError;
      }
      InstallInitiator(InitiatorKeys(symmetric), r.sender, now);
      Over(Ok, true);
      return Ok;
    }

    /** The attempt is over. */
    ghost method Over(err: Err, left: bool)
      requires Valid() && call.Busy?
      modifies this`call, this`connecting
      ensures View() == Ended(old(View()), err, left)
    {
      call, connecting := call.(err := err, left := left), None;
    }

    method InstallInitiator(keys: Keys, remote: nat, now: nat)
      requires Valid()
      modifies this`session, this`prevSession, this`installs
      ensures Valid()
      ensures var s := old(session);
        var n := Installed(s, keys, s.localIndex, remote, now);
        var prev := if s.valid then s.(localIndex := s.oldLocalIndex) else old(prevSession);
        View() == old(View()).(tun := old(View()).tun.(session := n, prevSession := prev),
                               installs := old(installs) + [InstallOf(n)])
    {
      hide Installed, InstallOf;
      if session.valid { prevSession := session.(localIndex := session.oldLocalIndex); }
      session := Overwritten(session, keys, session.localIndex, remote, now);
      installs := installs + [InstallOf(session)];
    }

    // wg_connect.

    /** After wg_handshake_init: what comes back, `err` then, and whether the loop is left */
    method Answered(reply: Reply, state: Pending, now: nat, before: Err) returns (err: Err, left: bool)
      requires Valid() && Awaiting(View(), false) && connecting == Some(state) && before == call.err
      modifies this, peers
      ensures Valid() && View() == Replied(old(View()), reply, now, false)
      ensures call.Busy? && err == call.err && left == call.left
    {
      hide AfterInitProcess, AfterHandshakeResponse;
      err, left := before, false;
      match reply {
        case Nothing(cause) =>
          err, left := Failed(cause);
        case First(m, ephemeral, index) =>
          var ok := InitProcess(m, ephemeral, index, now);
          if ok { err, left := Ok, true; }
          Over(err, left);
        case Answer(r) =>
          err := HandshakeResponse(r, state, now);
          left := err == Ok;
      }
    }

    /** The attempts that end without a message to process */
    method Failed(cause: Failure) returns (err: Err, left: bool)
      requires Valid() && Awaiting(View(), false)
      modifies this`call, this`connecting
      ensures Valid() && View() == AfterAttemptFailed(old(View()), cause)
      ensures call.Busy? && err == call.err && left == call.left
    {
      match cause {
        case NotSent => err, left := SocketError, true;
        case Silence => err, left := Timeout, false;
        case Cookie => err, left := Timeout, false;
        case Short => err, left := HandshakeError, false;
      }
      Over(err, left);
    }

    /** One turn of the loop */
    method ConnectOnce(a: Attempt) returns (err: Err, left: bool)
      requires Valid() && MayAttempt(View(), false)
      modifies this, peers
      ensures Valid() && View() == Attempted(old(View()), a, false)
      ensures InLoop(View(), Attempting(old(View()), false), err, left)
    {
      hide AfterInitProcess, AfterHandshakeResponse, InitState, InitMessage, Replied;
      var m, state := HandshakeInit(a.ephemeral, a.index, a.stamp, false);
      RepliedKeeps(View(), a.reply, a.now, false);
      err, left := Answered(a.reply, state, a.now, Ok);
    }

    /**
     wg_connect.  The script says what each attempt would meet; the loop uses as
     much of it as it comes to.
     */
    method Connect(script: seq<Attempt>, now: nat) returns (err: Err)
      requires Valid() && call.Idle? && |script| == MAX_ATTEMPTS
      modifies this, peers
      ensures Valid() && View() == AfterReturn(AttemptedAll(old(View()), script, MAX_ATTEMPTS, false), now)
      ensures var v := AttemptedAll(old(View()), script, MAX_ATTEMPTS, false); MayReturn(v) && err == v.call.err
    {
      hide Attempted, AttemptedAll;
      ghost var w := View();
      NoneAttempted(w, script, false);
      err := Timeout;
      var attempt, left := 0, false;
      while attempt < MAX_ATTEMPTS && !left
        invariant attempt <= MAX_ATTEMPTS && Valid() && View() == AttemptedAll(w, script, attempt, false)
        invariant if attempt == 0 then call.Idle? && !left else InLoop(View(), call, err, left)
        invariant attempt > 0 ==> call.attempt == attempt && !call.rekey
      {
        AttemptedNext(w, script, attempt, false);
        err, left := ConnectOnce(script[attempt]);
        attempt := attempt + 1;
      }
      LeftAll(w, script, attempt, MAX_ATTEMPTS, false);
      if err != Ok {
        session := session.(rekeyInProgress := false);
        call := Idle;
        return;
      }
      call := Idle;
      SendLegacy(true, now);
    }

    // wg_rekey.

    /** After wg_handshake_init: what the receive thread has left when the wait is over */
    method Found(reply: Reply, state: Pending, now: nat, before: Err) returns (err: Err, left: bool)
      requires Valid() && Awaiting(View(), true) && connecting == Some(state) && before == call.err
      requires session.rekeyInProgress && pendingResponse.None?
      modifies this, peers
      ensures Valid() && View() == Replied(old(View()), reply, now, true)
      ensures call.Busy? && err == call.err && left == call.left
    {
      hide AfterReceiveInit, AfterHandshakeResponse;
      err, left := before, false;
      match reply {
        case Nothing(cause) =>
          match cause {
            case NotSent => err, left := SocketError, true;
            case Silence => err := Timeout;
            case Cookie =>
            case Short => err := HandshakeError;
          }
          Over(err, left);
        case First(m, ephemeral, index) =>
          ReceiveInit(m, ephemeral, index, now);
          InitReceived(old(View()), m, ephemeral, index, now);
          err := Timeout;
          Over(err, left);
        case Answer(r) =>
          ReceiveResponse(r, now);
          err := HandshakeResponse(pendingResponse.value, state, now);
          left := err == Ok;
      }
    }

    /** One turn of the loop */
    method RekeyOnce(a: Attempt) returns (err: Err, left: bool)
      requires Valid() && MayAttempt(View(), true)
      modifies this, peers
      ensures Valid() && View() == Attempted(old(View()), a, true)
      ensures InLoop(View(), Attempting(old(View()), true), err, left)
    {
      hide AfterReceiveInit, AfterHandshakeResponse, InitState, InitMessage, Replied;
      pendingResponse := None;
      var m, state := HandshakeInit(a.ephemeral, a.index, a.stamp, true);
      RepliedKeeps(View(), a.reply, a.now, true);
      err, left := Found(a.reply, state, a.now, Ok);
    }

    /** wg_rekey */
    method Rekey(script: seq<Attempt>, now: nat) returns (err: Err)
      requires Valid() && call.Idle? && |script| == MAX_ATTEMPTS
      modifies this, peers
      ensures Valid() && View() == AfterReturn(AttemptedAll(old(View()), script, MAX_ATTEMPTS, true), now)
      ensures var v := AttemptedAll(old(View()), script, MAX_ATTEMPTS, true); MayReturn(v) && err == v.call.err
    {
      hide Attempted, AttemptedAll;
      ghost var w := View();
      NoneAttempted(w, script, true);
      var saved := session.localIndex;
      err := Timeout;
      var attempt, left := 0, false;
      while attempt < MAX_ATTEMPTS && !left
        invariant attempt <= MAX_ATTEMPTS && Valid() && View() == AttemptedAll(w, script, attempt, true)
        invariant if attempt == 0 then call.Idle? && !left && session.localIndex == saved
                  else InLoop(View(), call, err, left) && call.saved == saved
        invariant attempt > 0 ==> call.attempt == attempt && call.rekey
      {
        AttemptedNext(w, script, attempt, true);
        err, left := RekeyOnce(script[attempt]);
        attempt := attempt + 1;
      }
      LeftAll(w, script, attempt, MAX_ATTEMPTS, true);
      if err != Ok {
        session := session.(localIndex := saved);
        session := session.(rekeyInProgress := false);
        call := Idle;
        return;
      }
      call := Idle;
      SendLegacy(true, now);
    }

    // The receive thread.

    /** A first message: respond, then one keepalive to the first connected peer */
    method ReceiveInit(m: Init, ephemeral: nat, index: nat, now: nat)
      requires Valid()
      modifies this, peers
      ensures Valid() && View() == AfterReceiveInit(old(View()), m, ephemeral, index, now)
    {
      hide AfterInitProcess, Bump, Sent;
      var ok := InitProcess(m, ephemeral, index, now);
      if !ok { return; }
      var i := 0;
      while i < peerCount && !(peers[i].connected && peers[i].session.valid)
        invariant i <= peerCount
        invariant forall j | 0 <= j < i :: !(peers[j].connected && peers[j].session.valid)
      {
        i := i + 1;
      }
      FirstFound(Table(), (p: Peer) => p.connected && p.session.valid, i);
      if i < peerCount { SendToPeer(i, true, now); }
    }

    /** A response: kept for wg_rekey, or matched against the table */
    method ReceiveResponse(r: Response, now: nat)
      requires Valid()
      modifies this`installs, this`pendingResponse, peers
      ensures Valid() && View() == AfterReceiveResponse(old(View()), r, now)
    {
      if session.rekeyInProgress {
        pendingResponse := Some(r);
        return;
      }
      var i := 0;
      while i < peerCount && !AwaitsResponse(peers[i], r.receiver)
        invariant i <= peerCount
        invariant forall j | 0 <= j < i :: !AwaitsResponse(peers[j], r.receiver)
      {
        i := i + 1;
      }
      FirstFound(Table(), (p: Peer) => AwaitsResponse(p, r.receiver), i);
      if i < peerCount { PeerResponse(i, r, now); }
    }

    /** wg_handshake_init_process_response */
    method PeerResponse(i: nat, r: Response, now: nat)
      requires Valid() && i < peerCount
      modifies this`installs, peers
      ensures Valid() && View() == AfterPeerResponse(old(View()), i, r, now)
    {
      hide Finish, InstallOf;
      peers[i] := peers[i].(session := peers[i].session.(remoteIndex := r.sender));
      var symmetric, ok := Handshake.Complete(secret, psk, peers[i].pending.ephemeral, peers[i].pending.symmetric, r);
      if ok {
        var s := peers[i].session;
        var n := Overwritten(s, InitiatorKeys(symmetric), s.localIndex, r.sender, now);
        peers[i] := peers[i].(session := n.(rekeyInProgress := s.rekeyInProgress), hsPending := false,
          pending := NO_PENDING);
        installs := installs + [InstallOf(peers[i].session)];
      } else {
        peers[i] := peers[i].(pending := peers[i].pending.(symmetric := symmetric));
      }
      assert Table() == old(Table())[i := peers[i]];
    }

    /** Where the receive thread finds the session of a transport packet */
    method FindSession(receiver: nat) returns (sess: Choice)
      requires Valid()
      ensures sess == Select(View().tun, receiver)
      ensures sess.Current? || sess.Previous? ==> sess.peer < peerCount
    {
      var peer := FindPeerByIndex(receiver);
      sess := NoSession;
      if peer.Some? {
        var i := peer.value;
        if receiver == peers[i].session.localIndex {
          sess := Current(i);
        } else if peers[i].prevSession.valid && receiver == peers[i].prevSession.localIndex {
          sess := Previous(i);
        }
      }
      if sess.NoSession? {
        if receiver == session.localIndex {
          sess := Legacy;
        } else if receiver == session.oldLocalIndex {
          sess := Legacy;
        } else if prevSession.valid && receiver == prevSession.localIndex {
          sess := LegacyPrevious;
        }
      }
    }

    /** *sess */
    method Read(sess: Choice) returns (s: Session)
      requires Valid() && !sess.NoSession? && (sess.Current? || sess.Previous? ==> sess.peer < peerCount)
      ensures s == SessionOf(View().tun, sess)
    {
      match sess {
        case Current(i) => s := peers[i].session;
        case Previous(i) => s := peers[i].prevSession;
        case Legacy => s := session;
        case LegacyPrevious => s := prevSession;
      }
    }

    /** Assignments through `sess` */
    method Write(sess: Choice, s: Session)
      requires Valid() && !sess.NoSession? && (sess.Current? || sess.Previous? ==> sess.peer < peerCount)
      modifies this`session, this`prevSession, peers
      ensures Valid() && View() == old(View()).(tun := With(old(View()).tun, sess, s))
    {
      match sess {
        case Current(i) => SetPeer(i, peers[i].(session := s));
        case Previous(i) => SetPeer(i, peers[i].(prevSession := s));
        case Legacy => session := s;
        case LegacyPrevious => prevSession := s;
      }
    }

    /** peer->connected = true, and after an empty packet peer->last_sent = now, if there is a peer */
    method Touch(sess: Choice, empty: bool, now: nat)
      requires Valid() && (sess.Current? || sess.Previous? ==> sess.peer < peerCount)
      modifies peers
      ensures Valid() && View() == old(View()).(tun := Touched(old(View()).tun, sess, empty, now))
    {
      if sess.Current? || sess.Previous? {
        var p := peers[sess.peer];
        if empty { p := p.(lastSent := now); }
        SetPeer(sess.peer, p.(connected := true));
      }
    }

    /** A transport packet */
    method ReceiveTransport(receiver: nat, counter: u64, cipher: Term, length: nat, now: nat) returns (delivered: bool)
      requires Valid() && RingsShaped(View().tun)
      modifies this`session, this`prevSession, peers
      ensures Valid()
      ensures View() == old(View()).(tun := AfterTransport(old(View()).tun, receiver, counter as nat, cipher, length,
        now))
      ensures delivered == Delivers(old(View()).tun, receiver, counter as nat, cipher, length, now)
    {
      hide Select, Expired, Opened, Applied, RingsShaped, Replay.Fits;
      var sess := FindSession(receiver);
      if sess.NoSession? {
        Nowhere(View().tun, counter as nat, cipher, length, now);
        return false;
      }
      delivered := OnSession(sess, counter, cipher, length, now);
    }

    /** The session's age, the empty packet, and for a payload decryption, the replay window and the bookkeeping */
    method OnSession(sess: Choice, counter: u64, cipher: Term, length: nat, now: nat) returns (delivered: bool)
      requires Valid() && RingsShaped(View().tun)
      requires !sess.NoSession? && (sess.Current? || sess.Previous? ==> sess.peer < peerCount)
      modifies this`session, this`prevSession, peers
      ensures Valid() && View() == old(View()).(tun := Applied(old(View()).tun, sess, counter as nat, cipher, length,
        now))
      ensures var s := old(SessionOf(View().tun, sess));
        && |s.replay.ring| == Replay.WORDS
        && (delivered <==> length > 0 && !Expired(s, now) && Opened(s, counter as nat, cipher, length, now).1)
    {
      var s := Read(sess);
      ghost var t := View().tun;
      assert Replay.Fits(s.replay);
      hide Opened, With, Touched, Applied, SessionOf, RingsShaped;
      if Elapsed(now, s.lastHandshake) >= REJECT_AFTER_TIME * SECOND {
        Rejected(t, sess, counter as nat, cipher, length, now);
        if sess.Previous? || sess.LegacyPrevious? { Write(sess, WIPED); }
        return false;
      }
      delivered := OnLiveSession(sess, s, counter, cipher, length, now);
    }

    method OnLiveSession(sess: Choice, s: Session, counter: u64, cipher: Term, length: nat, now: nat)
      returns (delivered: bool)
      requires Valid() && RingsShaped(View().tun)
      requires !sess.NoSession? && (sess.Current? || sess.Previous? ==> sess.peer < peerCount)
      requires s == SessionOf(View().tun, sess) && Replay.Fits(s.replay) && !Expired(s, now)
      modifies this`session, this`prevSession, peers
      ensures Valid() && View() == old(View()).(tun := Applied(old(View()).tun, sess, counter as nat, cipher, length,
        now))
      ensures delivered <==> length > 0 && Opened(s, counter as nat, cipher, length, now).1
    {
      Passed(View().tun, sess, counter as nat, cipher, length, now);
      hide Opened, With, Touched, Applied, SessionOf, RingsShaped, Expired, Replay.Fits;
      if length == 0 {
        OpenedEmpty(s, counter as nat, cipher, length, now);
        Write(sess, s.(lastReceived := now));
        Touch(sess, true, now);
        return false;
      }
      var u;
      u, delivered := OpenPayload(s, counter, cipher, length, now);
      Write(sess, u);
      if delivered { Touch(sess, false, now); }
    }

    // The keepalive thread.

    /** One turn of the loop over the peers */
    method TickAt(i: nat, now: nat)
      requires Valid() && i < peerCount
      modifies this`sent, peers
      ensures Valid() && View() == AfterTickPeer(old(View()), i, now)
    {
      var p := peers[i];
      if !p.configured { return; }
      if p.session.valid && Elapsed(now, p.session.lastHandshake) >= 3 * REJECT_AFTER_TIME * SECOND {
        SetPeer(i, p.(session := WIPED, connected := false, prevSession := WIPED));
        return;
      }
      if !p.session.valid { return; }
      if p.session.lastReceived > 0 && Elapsed(now, p.lastSent) >= KEEPALIVE_TIMEOUT * SECOND {
        SendToPeer(i, true, now);
        return;
      }
      if keepaliveInterval > 0 && Elapsed(now, p.lastSent) >= keepaliveInterval * SECOND { SendToPeer(i, true, now); }
    }

    /** One period: every peer in table order, then the legacy session */
    method Tick(now: nat)
      requires Valid()
      modifies this`sent, this`session, this`prevSession, this`wipes, peers
      ensures Valid() && View() == AfterTickLegacy(AfterTicks(old(View()), |old(Table())|, now), now)
    {
      hide AfterTickPeer, AfterTickLegacy;
      var i := 0;
      while i < peerCount
        invariant Valid() && i <= peerCount && peerCount == |old(Table())|
        invariant View() == AfterTicks(old(View()), i, now)
      {
        TickAt(i, now);
        i := i + 1;
      }
      ExpireLegacy(now);
    }

    method ExpireLegacy(now: nat)
      requires Valid()
      modifies this`session, this`prevSession, this`wipes
      ensures Valid() && View() == AfterTickLegacy(old(View()), now)
    {
      if session.valid && Elapsed(now, session.lastHandshake) >= 3 * REJECT_AFTER_TIME * SECOND {
        session, prevSession := WIPED, WIPED;
        wipes := wipes + 1;
      }
    }
  }

  /** Decryption, the replay window and the session's own fields, in the order of the code */
  method OpenPayload(s: Session, counter: u64, cipher: Term, length: nat, now: nat)
    returns (t: Session, delivered: bool)
    requires Replay.Fits(s.replay) && length > 0
    ensures (t, delivered) == Opened(s, counter as nat, cipher, length, now)
  {
    hide Replay.Step, Replay.Fits;
    t := s;
    if Open(s.receivingKey, counter as nat, cipher, Empty).None? { return s, false; }
    var window := new Replay.ReplayCounter.From(s.replay);
    delivered := window.Validate(counter);
    var replay := window.Save();
    t := t.(replay := replay, presented := t.presented + [counter as nat]);
    if !delivered { return; }
    t := t.(lastReceived := now);
    t := t.(receivingCounter := counter as nat + 1);
  }

  /** The stores of a handshake into a session, one by one */
  function Overwritten(s: Session, keys: Keys, local: nat, remote: nat, now: nat): (r: Session)
    ensures r == Installed(s, keys, local, remote, now)
  {
    var s := s.(sendingKey := keys.sending, receivingKey := keys.receiving);
    var s := s.(sendingCounter := 0).(receivingCounter := 0);
    var s := s.(localIndex := local).(remoteIndex := remote).(lastHandshake := now).(valid := true);
    s.(rekeyInProgress := false).(replay := Replay.INITIAL, presented := [])
  }

  // Calls as runs.

  /** What the threads do in one attempt */
  function AttemptSteps(a: Attempt, rekey: bool): seq<Step> {
    var first := ConnectInit(a.ephemeral, a.index, a.stamp, rekey);
    match a.reply
    case Nothing(cause) => [first, AttemptFailed(cause)]
    case First(m, ephemeral, index) =>
      if rekey then [first, ReceiveInit(m, ephemeral, index, a.now), AttemptFailed(Silence)]
      else [first, ConnectPassive(m, ephemeral, index, a.now)]
    case Answer(r) =>
      if rekey then [first, ReceiveResponse(r, a.now), RekeyResponse(a.now)] else [first, ConnectResponse(r, a.now)]
  }

  lemma {:induction false} RunConcat(w: World, s: seq<Step>, t: seq<Step>)
    requires TunnelInvariants.Inv(w)
    ensures TunnelInvariants.Run(w, s + t) == TunnelInvariants.Run(TunnelInvariants.Run(w, s), t)
    decreases |t|
  {
    hide TunnelInvariants.Inv, Next, RingsShaped;
    if t == [] {
      assert s + t == s;
    } else {
      var n := |t| - 1;
      RunConcat(w, s, t[..n]);
      assert (s + t)[..|s + t| - 1] == s + t[..n];
    }
  }

  lemma OneStep(w: World, step: Step)
    requires TunnelInvariants.Inv(w)
    ensures RingsShaped(w.tun) && TunnelInvariants.Inv(Next(w, step))
      && TunnelInvariants.Run(w, [step]) == Next(w, step)
  {
    TunnelInvariants.NextInv(w, step);
    hide TunnelInvariants.Inv, Next, RingsShaped;
    assert [step][..0] == [];
  }

  lemma TwoSteps(w: World, a: Step, b: Step)
    requires TunnelInvariants.Inv(w)
    ensures RingsShaped(w.tun) && TunnelInvariants.Inv(Next(w, a)) && RingsShaped(Next(w, a).tun)
    ensures TunnelInvariants.Inv(Next(Next(w, a), b)) && TunnelInvariants.Run(w, [a, b]) == Next(Next(w, a), b)
  {
    hide TunnelInvariants.Inv, Next, RingsShaped, TunnelInvariants.Run;
    OneStep(w, a);
    OneStep(Next(w, a), b);
    RunConcat(w, [a], [b]);
    assert [a] + [b] == [a, b];
  }

  lemma ThreeSteps(w: World, a: Step, b: Step, c: Step)
    requires TunnelInvariants.Inv(w)
    ensures RingsShaped(w.tun) && RingsShaped(Next(w, a).tun) && RingsShaped(Next(Next(w, a), b).tun)
    ensures TunnelInvariants.Run(w, [a, b, c]) == Next(Next(Next(w, a), b), c)
  {
    hide TunnelInvariants.Inv, Next, RingsShaped, TunnelInvariants.Run;
    TwoSteps(w, a, b);
    OneStep(Next(Next(w, a), b), c);
    RunConcat(w, [a, b], [c]);
    assert [a, b] + [c] == [a, b, c];
  }

  lemma StepsMean(w: World, a: Attempt, rekey: bool)
    requires RingsShaped(w.tun)
    ensures Next(w, ConnectInit(a.ephemeral, a.index, a.stamp, rekey))
         == AfterConnectInit(w, a.ephemeral, a.index, a.stamp, rekey)
    ensures Next(w, RekeyResponse(a.now)) == AfterRekeyResponse(w, a.now)
    ensures Next(w, AttemptFailed(Silence)) == AfterAttemptFailed(w, Silence)
    ensures a.reply.Nothing? ==> Next(w, AttemptFailed(a.reply.cause)) == AfterAttemptFailed(w, a.reply.cause)
  {
    hide RingsShaped, AfterConnectInit, AfterRekeyResponse, AfterAttemptFailed;
  }

  lemma MessagesMean(w: World, m: Init, ephemeral: nat, index: nat, r: Response, now: nat)
    requires RingsShaped(w.tun)
    ensures Next(w, ReceiveInit(m, ephemeral, index, now)) == AfterReceiveInit(w, m, ephemeral, index, now)
    ensures Next(w, ConnectPassive(m, ephemeral, index, now)) == AfterConnectPassive(w, m, ephemeral, index, now)
    ensures Next(w, ReceiveResponse(r, now)) == AfterReceiveResponse(w, r, now)
    ensures Next(w, ConnectResponse(r, now)) == AfterConnectResponse(w, r, now)
  {
    hide RingsShaped, AfterReceiveInit, AfterConnectPassive, AfterReceiveResponse, AfterConnectResponse;
  }

  lemma AttemptIsRun(w: World, a: Attempt, rekey: bool)
    requires TunnelInvariants.Inv(w) && MayAttempt(w, rekey)
    ensures TunnelInvariants.Run(w, AttemptSteps(a, rekey)) == Attempted(w, a, rekey)
  {
    hide TunnelInvariants.Inv, RingsShaped, TunnelInvariants.Run, Next, AfterConnectInit, AfterReceiveInit, MayAttempt;
    hide AfterConnectPassive, AfterConnectResponse, AfterRekeyResponse, AfterAttemptFailed, AfterReceiveResponse;
    var first := ConnectInit(a.ephemeral, a.index, a.stamp, rekey);
    OneStep(w, first);
    StepsMean(w, a, rekey);
    var u := Next(w, first);
    OneStep(u, first);
    StepsMean(u, a, rekey);
    match a.reply
    case Nothing(cause) =>
      TwoSteps(w, first, AttemptFailed(cause));
    case First(m, ephemeral, index) =>
      MessagesMean(u, m, ephemeral, index, Response(0, 0, Empty, Empty, Empty), a.now);
      if rekey {
        ThreeSteps(w, first, ReceiveInit(m, ephemeral, index, a.now), AttemptFailed(Silence));
        StepsMean(Next(u, ReceiveInit(m, ephemeral, index, a.now)), a, rekey);
      } else {
        TwoSteps(w, first, ConnectPassive(m, ephemeral, index, a.now));
      }
    case Answer(r) =>
      MessagesMean(u, Init(0, Empty, Empty, Empty, Empty), 0, 0, r, a.now);
      if rekey {
        ThreeSteps(w, first, ReceiveResponse(r, a.now), RekeyResponse(a.now));
        StepsMean(Next(u, ReceiveResponse(r, a.now)), a, rekey);
      } else {
        TwoSteps(w, first, ConnectResponse(r, a.now));
      }
  }

  lemma EmptyRun(w: World)
    requires TunnelInvariants.Inv(w)
    ensures TunnelInvariants.Run(w, []) == w
  {}

  lemma {:induction false} AttemptsAreRun(w: World, script: seq<Attempt>, k: nat, rekey: bool)
    returns (steps: seq<Step>)
    requires TunnelInvariants.Inv(w) && k <= |script|
    ensures TunnelInvariants.Run(w, steps) == AttemptedAll(w, script, k, rekey)
  {
    hide TunnelInvariants.Inv, TunnelInvariants.Run, AttemptSteps, AttemptedAll;
    if k == 0 {
      steps := [];
      EmptyRun(w);
      NoneAttempted(w, script, rekey);
    } else {
      steps := AttemptsAreRun(w, script, k - 1, rekey);
      AttemptedNext(w, script, k - 1, rekey);
      var v, more := TunnelInvariants.Run(w, steps), AttemptSteps(script[k - 1], rekey);
      if MayAttempt(v, rekey) {
        AttemptIsRun(v, script[k - 1], rekey);
        hide Attempted;
        RunConcat(w, steps, more);
        steps := steps + more;
      }
    }
  }

  /** A call without pause is a run of the state machine. */
  lemma CallIsRun(w: World, script: seq<Attempt>, now: nat, rekey: bool) returns (steps: seq<Step>)
    requires TunnelInvariants.Inv(w) && |script| == MAX_ATTEMPTS
    ensures TunnelInvariants.Run(w, steps) == AfterReturn(AttemptedAll(w, script, MAX_ATTEMPTS, rekey), now)
  {
    hide TunnelInvariants.Inv, TunnelInvariants.Run, AttemptedAll, AfterReturn, RingsShaped;
    steps := AttemptsAreRun(w, script, MAX_ATTEMPTS, rekey);
    OneStep(TunnelInvariants.Run(w, steps), Return(now));
    RunConcat(w, steps, [Return(now)]);
    steps := steps + [Return(now)];
  }

  /** The keepalive thread's loop as steps of the state machine */
  function AfterTicks(w: World, n: nat, now: nat): (v: World)
    requires n <= |w.tun.peers|
    ensures |v.tun.peers| == |w.tun.peers|
  {
    if n == 0 then w else AfterTickPeer(AfterTicks(w, n - 1, now), n - 1, now)
  }

  /** The steps of the keepalive thread's loop */
  function TickSteps(n: nat, now: nat): (steps: seq<Step>)
    ensures |steps| == n
  {
    if n == 0 then [] else TickSteps(n - 1, now) + [TickPeer(n - 1, now)]
  }

  /** One period of the keepalive thread is a run: the peers' steps in table order, then the legacy one. */
  lemma {:induction false} TickIsRun(w: World, n: nat, now: nat)
    requires TunnelInvariants.Inv(w) && n <= |w.tun.peers|
    ensures TunnelInvariants.Run(w, TickSteps(n, now)) == AfterTicks(w, n, now)
    ensures TunnelInvariants.Run(w, TickSteps(n, now) + [TickLegacy(now)])
      == AfterTickLegacy(AfterTicks(w, n, now), now)
  {
    hide TunnelInvariants.Inv, AfterTickPeer, AfterTickLegacy, Next, RingsShaped;
    var steps := TickSteps(n, now);
    if n > 0 {
      TickIsRun(w, n - 1, now);
      assert steps[..n - 1] == TickSteps(n - 1, now);
      TickMeaning(TunnelInvariants.Run(w, steps[..n - 1]), n - 1, now);
    }
    assert (steps + [TickLegacy(now)])[..n] == steps;
    TickMeaning(TunnelInvariants.Run(w, steps), 0, now);
  }

  lemma TickMeaning(w: World, i: nat, now: nat)
    requires TunnelInvariants.Inv(w)
    ensures RingsShaped(w.tun)
    ensures i < |w.tun.peers| ==> Next(w, TickPeer(i, now)) == AfterTickPeer(w, i, now)
    ensures Next(w, TickLegacy(now)) == AfterTickLegacy(w, now)
  {
    TunnelInvariants.InvShaped(w);
    hide TunnelInvariants.Inv, RingsShaped, AfterTickPeer, AfterTickLegacy;
  }
}
