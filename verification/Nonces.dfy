/**
 What the counters of transport packets count: over every run with fresh
 ephemerals, the packets under the same installed key, although every install
 resets the counter to zero; and under the all-zero key of a wiped session, the
 packets since the last wipe.
 */
module Nonces {
  import opened MachineInts
  import opened Options
  import opened Noise
  import opened Tunnel
  import opened TunnelInvariants
  import Replay

  // Whose ephemeral a sending key depends on.

  function Under(t: Term, n: nat): Term {
    if n == 0 then t else if t.Kdf? then Under(t.key, n - 1) else Zero
  }

  function PublicId(t: Term): Option<nat> {
    if t.Kdf? && t.input.Pub? then Some(t.input.id) else None
  }

  /** The own ephemeral in a sending key: four KDF layers down for a responder, seven for an initiator */
  function Owner(key: Term): Option<nat> {
    if !key.Kdf? then None
    else if key.index == 2 then PublicId(Under(key, 4))
    else PublicId(Under(key, 7))
  }

  lemma ResponderOwner(secret: nat, psk: Term, m: Init, ephemeral: nat, index: nat)
    requires Respond(secret, psk, m, ephemeral, index).Some?
    ensures Owner(ResponderKeys(Respond(secret, psk, m, ephemeral, index).value.outcome).sending) == Some(ephemeral)
  {
    var ck := Respond(secret, psk, m, ephemeral, index).value.outcome.ck;
    assert Under(Kdf(2, ck, Empty), 4) == Under(ck, 3) == Under(ck.key, 2) == Under(ck.key.key, 1) == ck.key.key.key;
  }

  /** A pending handshake holds its own ephemeral. */
  predicate OwnPending(p: Pending) {
    PublicId(Under(p.symmetric.ck, 2)) == Some(p.ephemeral)
  }

  lemma InitOwner(secret: nat, peer: Term, ephemeral: nat, index: nat, stamp: nat)
    ensures OwnPending(Pending(InitState(secret, peer, ephemeral, index, stamp), ephemeral))
  {
    var ck := InitState(secret, peer, ephemeral, index, stamp).ck;
    assert Under(ck, 2) == Under(ck.key, 1) == ck.key.key;
  }

  lemma InitiatorOwner(secret: nat, psk: Term, p: Pending, r: Response)
    requires OwnPending(p)
    ensures Owner(InitiatorKeys(Finish(secret, psk, p.ephemeral, p.symmetric, r).0).sending) == Some(p.ephemeral)
  {
    var ck := Finish(secret, psk, p.ephemeral, p.symmetric, r).0.ck;
    assert ck.key.key.key.key == p.symmetric.ck;
    assert Under(Kdf(1, ck, Empty), 7) == Under(ck, 6) == Under(ck.key, 5) == Under(ck.key.key, 4)
        == Under(ck.key.key.key, 3) == Under(p.symmetric.ck, 2);
  }

  // Counting.

  /** The packets that one counter runs through: those under an installed key, or under no key since one wipe */
  datatype Line = Keyed(key: Term) | Wiped(epoch: nat)

  function LineOf(p: Packet): Line { if p.key == Zero then Wiped(p.epoch) else Keyed(p.key) }

  function Count(sent: seq<Packet>, line: Line): nat {
    if sent == [] then 0
    else Count(sent[..|sent| - 1], line) + (if LineOf(sent[|sent| - 1]) == line then 1 else 0)
  }

  lemma CountAppend(sent: seq<Packet>, p: Packet, line: Line)
    ensures Count(sent + [p], line) == Count(sent, line) + (if LineOf(p) == line then 1 else 0)
  {
    assert (sent + [p])[..|sent|] == sent;
  }

  lemma {:induction false} CountNone(sent: seq<Packet>, line: Line)
    requires forall n | 0 <= n < |sent| :: LineOf(sent[n]) != line
    ensures Count(sent, line) == 0
  {
    if sent != [] { CountNone(sent[..|sent| - 1], line); }
  }

  lemma {:induction false} CountMonotone(sent: seq<Packet>, p: nat, q: nat, line: Line)
    requires p < q <= |sent| && LineOf(sent[p]) == line
    ensures Count(sent[..p], line) < Count(sent[..q], line)
  {
    assert sent[..q][..q - 1] == sent[..q - 1];
    if p < q - 1 { CountMonotone(sent, p, q - 1, line); }
  }

  // The invariant.

  /** The sessions that packets are sent from: the legacy one, then the table peers' */
  function Sender(t: Tunnel, i: nat): Session
    requires i <= |t.peers|
  {
    if i == 0 then t.session else t.peers[i - 1].session
  }

  predicate Owned(key: Term, used: set<nat>) {
    Owner(key).Some? && Owner(key).value in used
  }

  /** A sender with installed keys has counted its packets; one without has the all-zero key. */
  ghost predicate SenderInv(s: Session, w: World) {
    && (s.valid ==> Owned(s.sendingKey, w.used) && s.sendingCounter == Count(w.sent, Keyed(s.sendingKey)) % TWO_64)
    && (!s.valid ==> s.sendingKey == Zero)
  }

  /** Without keys, the legacy session has counted the packets since it was last wiped. */
  ghost predicate LegacyInv(w: World) {
    !w.tun.session.valid ==> w.tun.session.sendingCounter == Count(w.sent, Wiped(w.wipes)) % TWO_64
  }

  ghost predicate PacketInv(w: World, n: nat)
    requires n < |w.sent|
  {
    && (w.sent[n].key == Zero || Owned(w.sent[n].key, w.used))
    && w.sent[n].counter == Count(w.sent[..n], LineOf(w.sent[n])) % TWO_64
    && w.sent[n].epoch <= w.wipes
  }

  /** No packet and no sender depends on this ephemeral yet. */
  ghost predicate Unused(w: World, ephemeral: nat) {
    && (forall n | 0 <= n < |w.sent| :: Owner(w.sent[n].key) != Some(ephemeral))
    && (forall i | 0 <= i <= |w.tun.peers| :: Owner(Sender(w.tun, i).sendingKey) != Some(ephemeral))
  }

  ghost predicate NonceInv(w: World) {
    && (forall n | 0 <= n < |w.sent| :: PacketInv(w, n))
    && (forall i | 0 <= i <= |w.tun.peers| :: SenderInv(Sender(w.tun, i), w))
    && LegacyInv(w)
    && (forall i, j | 0 <= i < j <= |w.tun.peers| ::
          Sender(w.tun, i).valid && Sender(w.tun, j).valid
          ==> Sender(w.tun, i).sendingKey != Sender(w.tun, j).sendingKey)
    && (w.connecting.Some? ==>
          && OwnPending(w.connecting.value) && w.connecting.value.ephemeral in w.used
          && Unused(w, w.connecting.value.ephemeral))
  }

  lemma FreshUnused(w: World, ephemeral: nat)
    requires NonceInv(w) && ephemeral !in w.used
    ensures Unused(w, ephemeral)
  {
    hide Owner;
    forall n | 0 <= n < |w.sent|
      ensures Owner(w.sent[n].key) != Some(ephemeral)
    {
      assert PacketInv(w, n);
      ZeroOwner();
    }
    forall i | 0 <= i <= |w.tun.peers|
      ensures Owner(Sender(w.tun, i).sendingKey) != Some(ephemeral)
    {
      assert SenderInv(Sender(w.tun, i), w);
      ZeroOwner();
    }
  }

  lemma ZeroOwner()
    ensures Owner(Zero) == None
  {}

  // The ways in which a step changes the senders.

  predicate Cleared(s: Session) { !s.valid && s.sendingKey == Zero }

  predicate Same(s: Session, t: Session) {
    t.valid == s.valid && t.sendingKey == s.sendingKey && t.sendingCounter == s.sendingCounter
  }

  /** The legacy session keeps its key and counter, or is wiped once more. */
  predicate LegacyKept(w: World, v: World) {
    || (v.wipes == w.wipes && Same(w.tun.session, v.tun.session))
    || (v.wipes == w.wipes + 1 && Cleared(v.tun.session) && v.tun.session.sendingCounter == 0)
  }

  /** All senders but `k` keep key and counter or have been wiped; `k` beyond the table excludes none. */
  ghost predicate OthersKept(w: World, v: World, k: nat) {
    && |w.tun.peers| <= |v.tun.peers| && w.used <= v.used
    && (if k == 0 then v.wipes == w.wipes else LegacyKept(w, v))
    && forall i | 0 < i <= |v.tun.peers| && i != k ::
      Cleared(Sender(v.tun, i)) || (i <= |w.tun.peers| && Same(Sender(w.tun, i), Sender(v.tun, i)))
  }

  lemma KeptUnused(w: World, v: World, k: nat, ephemeral: nat)
    requires OthersKept(w, v, k) && Unused(w, ephemeral)
    requires k <= |v.tun.peers| ==> Owner(Sender(v.tun, k).sendingKey) != Some(ephemeral)
    requires v.sent == w.sent
      || (k <= |w.tun.peers| && v.sent == w.sent + [Sent(Sender(w.tun, k), w.wipes)])
    ensures Unused(v, ephemeral)
  {
    ZeroOwner();
    hide Owner;
    forall i | 0 <= i <= |v.tun.peers|
      ensures Owner(Sender(v.tun, i).sendingKey) != Some(ephemeral)
    {
      if i <= |w.tun.peers| { assert Owner(Sender(w.tun, i).sendingKey) != Some(ephemeral); }
    }
  }

  lemma PacketsKept(w: World, v: World)
    requires NonceInv(w) && v.sent == w.sent && w.used <= v.used && w.wipes <= v.wipes
    ensures forall n | 0 <= n < |v.sent| :: PacketInv(v, n)
  {
    hide Owner, Count;
    forall n | 0 <= n < |v.sent|
      ensures PacketInv(v, n)
    {
      assert PacketInv(w, n);
    }
  }

  lemma LegacyStays(w: World, v: World)
    requires NonceInv(w) && v.sent == w.sent && LegacyKept(w, v)
    ensures LegacyInv(v)
  {
    hide Owner, Count;
    if v.wipes != w.wipes {
      forall n | 0 <= n < |w.sent|
        ensures LineOf(w.sent[n]) != Wiped(v.wipes)
      {
        assert PacketInv(w, n);
      }
      CountNone(w.sent, Wiped(v.wipes));
    }
  }

  /** Two senders, neither of them `k`, still have different keys. */
  lemma StillDistinct(w: World, v: World, k: nat, i: nat, j: nat)
    requires NonceInv(w) && OthersKept(w, v, k) && i < j <= |v.tun.peers| && i != k && j != k
    requires Sender(v.tun, i).valid && Sender(v.tun, j).valid
    ensures Sender(v.tun, i).sendingKey != Sender(v.tun, j).sendingKey
  {
    hide Owner, Count;
    assert j <= |w.tun.peers| && Same(Sender(w.tun, j), Sender(v.tun, j));
    assert Same(Sender(w.tun, i), Sender(v.tun, i));
  }

  /** Nothing is sent and nothing installed. */
  lemma Quiet(w: World, v: World)
    requires NonceInv(w) && OthersKept(w, v, |v.tun.peers| + 1) && v.sent == w.sent
    requires v.connecting.Some? ==> v.connecting == w.connecting
    ensures NonceInv(v)
  {
    hide Owner, Count;
    if v.connecting.Some? { KeptUnused(w, v, |v.tun.peers| + 1, v.connecting.value.ephemeral); }
    PacketsKept(w, v);
    LegacyStays(w, v);
    forall i | 0 <= i <= |v.tun.peers|
      ensures SenderInv(Sender(v.tun, i), v)
    {
      if i <= |w.tun.peers| { assert SenderInv(Sender(w.tun, i), w); }
    }
    forall i, j | 0 <= i < j <= |v.tun.peers| && Sender(v.tun, i).valid && Sender(v.tun, j).valid
      ensures Sender(v.tun, i).sendingKey != Sender(v.tun, j).sendingKey
    {
      StillDistinct(w, v, |v.tun.peers| + 1, i, j);
    }
  }

  lemma PacketAdded(w: World, v: World, p: Packet)
    requires NonceInv(w) && v.sent == w.sent + [p] && w.used <= v.used && v.wipes == w.wipes
    requires (p.key == Zero || Owned(p.key, v.used)) && p.counter == Count(w.sent, LineOf(p)) % TWO_64
      && p.epoch <= v.wipes
    ensures forall n | 0 <= n < |v.sent| :: PacketInv(v, n)
  {
    hide Owner, Count;
    forall n | 0 <= n < |v.sent|
      ensures PacketInv(v, n)
    {
      if n < |w.sent| {
        assert PacketInv(w, n);
        assert v.sent[..n] == w.sent[..n];
      } else {
        assert v.sent[..n] == w.sent;
      }
    }
  }

  /** Sender `k` sends one packet: its counter moves on by one, and so does the number of packets on its line. */
  lemma SendKeeps(w: World, v: World, k: nat)
    requires NonceInv(w) && k <= |w.tun.peers| == |v.tun.peers| && OthersKept(w, v, k) && v.wipes == w.wipes
    requires k == 0 || Sender(w.tun, k).valid
    requires v.sent == w.sent + [Sent(Sender(w.tun, k), w.wipes)]
    requires Sender(v.tun, k).valid == Sender(w.tun, k).valid
      && Sender(v.tun, k).sendingKey == Sender(w.tun, k).sendingKey
    requires Sender(v.tun, k).sendingCounter == (Sender(w.tun, k).sendingCounter + 1) % TWO_64
    requires v.connecting.Some? ==> v.connecting == w.connecting
    ensures NonceInv(v)
  {
    hide Owner, Count;
    var s := Sender(w.tun, k);
    var p := Sent(s, w.wipes);
    assert SenderInv(s, w);
    ZeroOwner();
    if v.connecting.Some? { KeptUnused(w, v, k, v.connecting.value.ephemeral); }
    PacketAdded(w, v, p);
    CountAppend(w.sent, p, LineOf(p));
    NextCount(s.sendingCounter, Count(w.sent, LineOf(p)));
    forall i | 0 <= i <= |v.tun.peers|
      ensures SenderInv(Sender(v.tun, i), v)
    {
      assert SenderInv(Sender(w.tun, i), w);
      CountAppend(w.sent, p, Keyed(Sender(v.tun, i).sendingKey));
    }
    CountAppend(w.sent, p, Wiped(w.wipes));
    forall i, j | 0 <= i < j <= |v.tun.peers| && Sender(v.tun, i).valid && Sender(v.tun, j).valid
      ensures Sender(v.tun, i).sendingKey != Sender(v.tun, j).sendingKey
    {
      if i != k && j != k {
        StillDistinct(w, v, k, i, j);
      } else {
        OneChanged(w, v, k, if i == k then j else i);
      }
    }
  }

  /** A sender other than `k` that is valid was valid with the same key before. */
  lemma OneChanged(w: World, v: World, k: nat, i: nat)
    requires OthersKept(w, v, k) && i <= |v.tun.peers| && i != k && Sender(v.tun, i).valid
    ensures i <= |w.tun.peers| && Same(Sender(w.tun, i), Sender(v.tun, i))
  {}

  lemma NextCount(counter: int, count: nat)
    ensures counter == count % TWO_64 ==> (counter + 1) % TWO_64 == (count + 1) % TWO_64
  {}

  /** Sender `k` gets a key that depends on an ephemeral of its own. */
  lemma InstallKeeps(w: World, v: World, k: nat, ephemeral: nat)
    requires NonceInv(w) && k <= |w.tun.peers| == |v.tun.peers| && OthersKept(w, v, k) && v.sent == w.sent
    requires v.wipes == w.wipes
    requires Sender(v.tun, k).valid && Sender(v.tun, k).sendingCounter == 0
    requires Owner(Sender(v.tun, k).sendingKey) == Some(ephemeral) && ephemeral in v.used && Unused(w, ephemeral)
    requires v.connecting.Some? ==> v.connecting == w.connecting && v.connecting.value.ephemeral != ephemeral
    ensures NonceInv(v)
  {
    hide Owner, Count;
    if v.connecting.Some? { KeptUnused(w, v, k, v.connecting.value.ephemeral); }
    PacketsKept(w, v);
    var key := Sender(v.tun, k).sendingKey;
    forall n | 0 <= n < |w.sent|
      ensures LineOf(w.sent[n]) != Keyed(key)
    {
      assert Owner(w.sent[n].key) != Some(ephemeral);
    }
    CountNone(w.sent, Keyed(key));
    forall i | 0 <= i <= |v.tun.peers|
      ensures SenderInv(Sender(v.tun, i), v)
    {
      assert SenderInv(Sender(w.tun, i), w);
    }
    forall i, j | 0 <= i < j <= |v.tun.peers| && Sender(v.tun, i).valid && Sender(v.tun, j).valid
      ensures Sender(v.tun, i).sendingKey != Sender(v.tun, j).sendingKey
    {
      if i != k && j != k {
        StillDistinct(w, v, k, i, j);
      } else {
        var l := if i == k then j else i;
        OneChanged(w, v, k, l);
        assert Owner(Sender(w.tun, l).sendingKey) != Some(ephemeral);
      }
    }
  }

  // Every step, with fresh ephemerals.

  /** A step's ephemeral key was never used before. */
  predicate Fresh(w: World, step: Step) {
    match step
    case Output(_, _, ephemeral, _, _, _, _) => ephemeral !in w.used
    case ReceiveInit(_, ephemeral, _, _) => ephemeral !in w.used
    case ConnectInit(ephemeral, _, _, _) => ephemeral !in w.used
    case ConnectPassive(_, ephemeral, _, _) => ephemeral !in w.used
    case _ => true
  }

  lemma PeerSentKeeps(w: World, i: nat, accepted: bool, now: nat)
    requires NonceInv(w) && i < |w.tun.peers| && w.tun.peers[i].session.valid
    ensures NonceInv(PeerSent(w, i, accepted, now))
  {
    hide NonceInv;
    var v := PeerSent(w, i, accepted, now);
    assert v.tun.peers[i].session == Bump(Sender(w.tun, i + 1)) == Sender(v.tun, i + 1);
    SendKeeps(w, v, i + 1);
  }

  lemma LegacySentKeeps(w: World, accepted: bool, now: nat)
    requires NonceInv(w)
    ensures NonceInv(LegacySent(w, accepted, now))
  {
    hide NonceInv;
    SendKeeps(w, LegacySent(w, accepted, now), 0);
  }

  lemma InitProcessKeeps(w: World, m: Init, ephemeral: nat, index: nat, now: nat)
    requires NonceInv(w) && ephemeral !in w.used
    ensures NonceInv(AfterInitProcess(w, m, ephemeral, index, now).0)
  {
    hide NonceInv, Owner, Respond, Unused;
    var v := AfterInitProcess(w, m, ephemeral, index, now).0;
    if Respond(w.tun.secret, w.tun.psk, m, ephemeral, index).None? {
      Quiet(w, v);
    } else {
      var a := Respond(w.tun.secret, w.tun.psk, m, ephemeral, index).value;
      ResponderOwner(w.tun.secret, w.tun.psk, m, ephemeral, index);
      FreshUnused(w, ephemeral);
      ConnectingUsed(w);
      match FindByKey(w.tun, a.peerStatic)
      case Some(i) =>
        assert v.tun.peers[i].session == Sender(v.tun, i + 1);
        InstallKeeps(w, v, i + 1, ephemeral);
      case None => InstallKeeps(w, v, 0, ephemeral);
    }
  }

  lemma ConnectingUsed(w: World)
    requires NonceInv(w)
    ensures w.connecting.Some? ==> w.connecting.value.ephemeral in w.used && OwnPending(w.connecting.value)
    ensures w.connecting.Some? ==> Unused(w, w.connecting.value.ephemeral)
  {}

  lemma ReceiveInitKeeps(w: World, m: Init, ephemeral: nat, index: nat, now: nat)
    requires NonceInv(w) && ephemeral !in w.used
    ensures NonceInv(AfterReceiveInit(w, m, ephemeral, index, now))
  {
    hide NonceInv, AfterInitProcess;
    InitProcessKeeps(w, m, ephemeral, index, now);
    var (v, ok) := AfterInitProcess(w, m, ephemeral, index, now);
    var i := Find(v.tun.peers, (p: Peer) => p.connected && p.session.valid);
    if ok && i.Some? { PeerSentKeeps(v, i.value, true, now); }
  }

  lemma OutputKeeps(w: World, ip: nat, length: nat, ephemeral: nat, index: nat, stamp: nat, accepted: bool, now: nat)
    requires NonceInv(w)
    ensures NonceInv(AfterOutput(w, ip, length, ephemeral, index, stamp, accepted, now))
  {
    hide NonceInv, InitState;
    var v := AfterOutput(w, ip, length, ephemeral, index, stamp, accepted, now);
    var i := FindByIp(w.tun, ip);
    if i.Some? && v.sent != w.sent {
      PeerSentKeeps(w, i.value, accepted, now);
    } else {
      Quiet(w, v);
    }
  }

  lemma OpenedKept(s: Session, counter: nat, cipher: Term, length: nat, now: nat)
    requires |s.replay.ring| == Replay.WORDS
    ensures Same(s, Opened(s, counter, cipher, length, now).0)
  {}

  /** A received packet never touches the sending half of a session. */
  lemma PeerOpenedKept(p: Peer, counter: nat, cipher: Term, length: nat, now: nat)
    requires |p.session.replay.ring| == Replay.WORDS && |p.prevSession.replay.ring| == Replay.WORDS
    ensures Same(p.session, OnCurrent(p, counter, cipher, length, now).session)
    ensures OnPrevious(p, counter, cipher, length, now).session == p.session
  {
    hide Opened;
    OpenedKept(p.session, counter, cipher, length, now);
  }

  lemma TransportKeeps(w: World, receiver: nat, counter: nat, cipher: Term, length: nat, now: nat)
    requires NonceInv(w) && RingsShaped(w.tun)
    ensures NonceInv(w.(tun := AfterTransport(w.tun, receiver, counter, cipher, length, now)))
  {
    hide NonceInv, Select, Opened, OnCurrent, OnPrevious, Expired;
    var v := w.(tun := AfterTransport(w.tun, receiver, counter, cipher, length, now));
    OpenedKept(w.tun.session, counter, cipher, length, now);
    forall i | 0 <= i < |w.tun.peers|
      ensures Same(w.tun.peers[i].session, v.tun.peers[i].session)
    {
      PeerOpenedKept(w.tun.peers[i], counter, cipher, length, now);
    }
    Quiet(w, v);
  }

  lemma TickPeerKeeps(w: World, i: nat, now: nat)
    requires NonceInv(w) && i < |w.tun.peers|
    ensures NonceInv(AfterTickPeer(w, i, now))
  {
    hide NonceInv;
    var v := AfterTickPeer(w, i, now);
    if v.sent != w.sent { PeerSentKeeps(w, i, true, now); } else { Quiet(w, v); }
  }

  lemma ConnectInitKeeps(w: World, ephemeral: nat, index: nat, stamp: nat, rekey: bool)
    requires NonceInv(w) && ephemeral !in w.used
    ensures NonceInv(AfterConnectInit(w, ephemeral, index, stamp, rekey))
  {
    if MayAttempt(w, rekey) {
      hide Owner, InitState, Count, Attempting;
      var v := AfterConnectInit(w, ephemeral, index, stamp, rekey);
      InitOwner(w.tun.secret, w.tun.peerPublic, ephemeral, index, stamp);
      FreshUnused(w, ephemeral);
      KeptUnused(w, v, |v.tun.peers| + 1, ephemeral);
      Quiet(w, v.(connecting := None));
      StartsConnecting(v);
    }
  }

  lemma StartsConnecting(v: World)
    requires NonceInv(v.(connecting := None)) && v.connecting.Some?
    requires OwnPending(v.connecting.value) && v.connecting.value.ephemeral in v.used
    requires Unused(v, v.connecting.value.ephemeral)
    ensures NonceInv(v)
  {
    hide Owner, Count;
    var u := v.(connecting := None);
    forall n | 0 <= n < |v.sent|
      ensures PacketInv(v, n)
    {
      assert PacketInv(u, n);
    }
    forall i | 0 <= i <= |v.tun.peers|
      ensures SenderInv(Sender(v.tun, i), v)
    {
      assert SenderInv(Sender(u.tun, i), u);
    }
    forall i, j | 0 <= i < j <= |v.tun.peers| && Sender(v.tun, i).valid && Sender(v.tun, j).valid
      ensures Sender(v.tun, i).sendingKey != Sender(v.tun, j).sendingKey
    {
      assert Sender(u.tun, i).sendingKey != Sender(u.tun, j).sendingKey;
    }
  }

  lemma HandshakeResponseKeeps(w: World, r: Response, now: nat)
    requires NonceInv(w) && w.call.Busy? && w.connecting.Some?
    ensures NonceInv(AfterHandshakeResponse(w, r, now))
  {
    hide NonceInv, Owner, Finish, Unused;
    var p := w.connecting.value;
    var v := AfterHandshakeResponse(w, r, now);
    if v.installs != w.installs {
      ConnectingUsed(w);
      InitiatorOwner(w.tun.secret, w.tun.psk, p, r);
      InstallKeeps(w, v, 0, p.ephemeral);
    } else {
      Quiet(w, v);
    }
  }

  lemma ResponseKeeps(w: World, r: Response, now: nat)
    requires NonceInv(w)
    ensures NonceInv(AfterConnectResponse(w, r, now))
  {
    hide NonceInv, AfterHandshakeResponse;
    if Awaiting(w, false) { HandshakeResponseKeeps(w, r, now); }
  }

  lemma RekeyResponseKeeps(w: World, now: nat)
    requires NonceInv(w)
    ensures NonceInv(AfterRekeyResponse(w, now))
  {
    hide NonceInv, AfterHandshakeResponse;
    if Awaiting(w, true) && w.tun.pendingResponse.Some? {
      HandshakeResponseKeeps(w, w.tun.pendingResponse.value, now);
    }
  }

  lemma ConnectPassiveKeeps(w: World, m: Init, ephemeral: nat, index: nat, now: nat)
    requires NonceInv(w) && ephemeral !in w.used
    ensures NonceInv(AfterConnectPassive(w, m, ephemeral, index, now))
  {
    hide NonceInv, AfterInitProcess;
    if Awaiting(w, false) {
      InitProcessKeeps(w, m, ephemeral, index, now);
      Quiet(AfterInitProcess(w, m, ephemeral, index, now).0, AfterConnectPassive(w, m, ephemeral, index, now));
    }
  }

  lemma ReturnKeeps(w: World, now: nat)
    requires NonceInv(w)
    ensures NonceInv(AfterReturn(w, now))
  {
    hide NonceInv;
    if MayReturn(w) && w.call.err == Ok {
      Quiet(w, w.(call := Idle));
      LegacySentKeeps(w.(call := Idle), true, now);
    } else {
      Quiet(w, AfterReturn(w, now));
    }
  }

  lemma SendStepKeeps(w: World, length: nat, accepted: bool, now: nat)
    requires NonceInv(w)
    ensures NonceInv(AfterSend(w, length, accepted, now))
  {
    hide NonceInv, LegacySent;
    LegacySentKeeps(w, accepted, now);
  }

  lemma PlainKeeps(w: World, step: Step)
    requires NonceInv(w) && RingsShaped(w.tun) && (step.AddPeer? || step.TickLegacy? || step.AttemptFailed?)
    ensures NonceInv(Next(w, step))
  {
    hide NonceInv;
    Quiet(w, Next(w, step));
  }

  lemma ReceiveResponseKeeps(w: World, r: Response, now: nat)
    requires Inv(w) && NonceInv(w)
    ensures NonceInv(AfterReceiveResponse(w, r, now))
  {
    hide NonceInv;
    ResponsesIgnored(w, r, now);
    hide Inv, AfterReceiveResponse;
    Quiet(w, w.(tun := w.tun.(pendingResponse := Some(r))));
  }

  /** Every step keeps the invariant. */
  lemma NextKeeps(w: World, step: Step)
    requires Inv(w) && NonceInv(w) && Fresh(w, step)
    ensures RingsShaped(w.tun) && NonceInv(Next(w, step))
  {
    hide NonceInv, Inv, RingsShaped, AfterOutput, AfterReceiveInit, AfterReceiveResponse, AfterTransport, AfterTickPeer,
      AfterTickLegacy, AfterConnectInit, AfterConnectResponse, AfterConnectPassive, AfterAttemptFailed, AddedPeer,
      AfterRekeyResponse, AfterReturn, AfterSend;
    InvShaped(w);
    match step
    case AddPeer(_, _) => PlainKeeps(w, step);
    case Output(ip, length, ephemeral, index, stamp, accepted, now) =>
      OutputKeeps(w, ip, length, ephemeral, index, stamp, accepted, now);
    case ReceiveInit(m, ephemeral, index, now) => ReceiveInitKeeps(w, m, ephemeral, index, now);
    case ReceiveResponse(r, now) => ReceiveResponseKeeps(w, r, now);
    case ReceiveTransport(receiver, counter, cipher, length, now) =>
      TransportKeeps(w, receiver, counter, cipher, length, now);
    case TickPeer(i, now) => if i < |w.tun.peers| { TickPeerKeeps(w, i, now); }
    case TickLegacy(_) => PlainKeeps(w, step);
    case ConnectInit(ephemeral, index, stamp, rekey) => ConnectInitKeeps(w, ephemeral, index, stamp, rekey);
    case ConnectResponse(r, now) => ResponseKeeps(w, r, now);
    case ConnectPassive(m, ephemeral, index, now) => ConnectPassiveKeeps(w, m, ephemeral, index, now);
    case RekeyResponse(now) => RekeyResponseKeeps(w, now);
    case AttemptFailed(_) => PlainKeeps(w, step);
    case Return(now) => ReturnKeeps(w, now);
    case Send(length, accepted, now) => SendStepKeeps(w, length, accepted, now);
  }
}
