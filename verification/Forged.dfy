/**
 What a transport packet that nobody with the session's key has sealed does to
 the tunnel.
 */
module Forged {
  import opened Noise
  import opened Tunnel
  import Replay

  /** The packet does not open under the key of the session that its index selects. */
  predicate IsForged(t: Tunnel, receiver: nat, counter: nat, cipher: Term) {
    var c := Select(t, receiver);
    !c.NoSession? ==> Open(SessionOf(t, c).receivingKey, counter, cipher, Empty).None?
  }

  /** A timestamp or the flag that an empty packet sets is not yet what it sets it to. */
  predicate Touches(t: Tunnel, c: Choice, now: nat)
    requires !c.NoSession? && (c.Current? || c.Previous? ==> c.peer < |t.peers|)
  {
    || SessionOf(t, c).lastReceived != now
    || ((c.Current? || c.Previous?) && (t.peers[c.peer].lastSent != now || !t.peers[c.peer].connected))
  }

  /** When a forged packet has an effect on the chosen session */
  predicate Moves(t: Tunnel, c: Choice, length: nat, now: nat)
    requires !c.NoSession? && (c.Current? || c.Previous? ==> c.peer < |t.peers|)
  {
    var s := SessionOf(t, c);
    || (!Expired(s, now) && length == 0 && Touches(t, c, now))
    || (Expired(s, now) && (c.Previous? || c.LegacyPrevious?) && s != WIPED)
  }

  /**
   A forged packet is never delivered.  It changes the tunnel exactly if it is
   empty, reaches a session that has not expired and finds a time or flag to set,
   or if it reaches an expired previous session that has not been wiped yet.
   */
  lemma ForgedEffect(t: Tunnel, receiver: nat, counter: nat, cipher: Term, length: nat, now: nat)
    requires RingsShaped(t) && IsForged(t, receiver, counter, cipher)
    ensures !Delivers(t, receiver, counter, cipher, length, now)
    ensures AfterTransport(t, receiver, counter, cipher, length, now) != t
       <==> !Select(t, receiver).NoSession? && Moves(t, Select(t, receiver), length, now)
  {
    var c := Select(t, receiver);
    if !c.NoSession? { ForgedOpened(SessionOf(t, c), counter, cipher, length, now); }
    hide Select, Expired, Open, OnCurrent, OnPrevious, Opened, Moves;
    if c.Current? || c.Previous? {
      OnTable(t, c, counter, cipher, length, now);
    } else if !c.NoSession? {
      OnLegacy(t, c, counter, cipher, length, now);
    }
  }

  lemma OnTable(t: Tunnel, c: Choice, counter: nat, cipher: Term, length: nat, now: nat)
    requires RingsShaped(t) && (c.Current? || c.Previous?) && c.peer < |t.peers|
    requires Open(SessionOf(t, c).receivingKey, counter, cipher, Empty).None?
    ensures Applied(t, c, counter, cipher, length, now) != t <==> Moves(t, c, length, now)
  {
    hide Expired, Open, OnCurrent, OnPrevious;
    var p := t.peers[c.peer];
    ForgedOnPeer(p, counter, cipher, length, now);
    EntryChanged(t, c.peer, OnCurrent(p, counter, cipher, length, now));
    EntryChanged(t, c.peer, OnPrevious(p, counter, cipher, length, now));
  }

  lemma OnLegacy(t: Tunnel, c: Choice, counter: nat, cipher: Term, length: nat, now: nat)
    requires RingsShaped(t) && (c.Legacy? || c.LegacyPrevious?)
    requires Open(SessionOf(t, c).receivingKey, counter, cipher, Empty).None?
    ensures Applied(t, c, counter, cipher, length, now) != t <==> Moves(t, c, length, now)
  {
    hide Expired, Open, Opened;
    ForgedOpened(SessionOf(t, c), counter, cipher, length, now);
  }

  lemma ForgedOpened(s: Session, counter: nat, cipher: Term, length: nat, now: nat)
    requires |s.replay.ring| == Replay.WORDS && Open(s.receivingKey, counter, cipher, Empty).None?
    ensures Opened(s, counter, cipher, length, now)
      == if length == 0 then (s.(lastReceived := now), true) else (s, false)
    ensures Opened(s, counter, cipher, length, now).0 != s <==> length == 0 && s.lastReceived != now
  {
    hide Open;
  }

  lemma ForgedOnPeer(p: Peer, counter: nat, cipher: Term, length: nat, now: nat)
    requires |p.session.replay.ring| == Replay.WORDS && |p.prevSession.replay.ring| == Replay.WORDS
    ensures Open(p.session.receivingKey, counter, cipher, Empty).None? ==>
      (OnCurrent(p, counter, cipher, length, now) != p
       <==> && !Expired(p.session, now) && length == 0
            && (p.session.lastReceived != now || p.lastSent != now || !p.connected))
    ensures Open(p.prevSession.receivingKey, counter, cipher, Empty).None? ==>
      (OnPrevious(p, counter, cipher, length, now) != p
       <==> if Expired(p.prevSession, now) then p.prevSession != WIPED
            else length == 0 && (p.prevSession.lastReceived != now || p.lastSent != now || !p.connected))
  {
    hide Expired, Open;
  }

  lemma EntryChanged(t: Tunnel, i: nat, p: Peer)
    requires i < |t.peers|
    ensures t.(peers := t.peers[i := p]) == t <==> p == t.peers[i]
  {
    if p == t.peers[i] {
      assert t.peers[i := p] == t.peers;
    } else {
      assert t.peers[i := p][i] != t.peers[i];
    }
  }

  /**
   On every table peer's live session, a forged empty packet is taken as a sign
   of life: it sets the time of the last packet received and of the last one sent.
   */
  lemma ForgedKeepalive(t: Tunnel, i: nat, receiver: nat, counter: nat, cipher: Term, now: nat)
    requires RingsShaped(t) && Select(t, receiver) == Current(i) && !Expired(t.peers[i].session, now)
    requires IsForged(t, receiver, counter, cipher)
    ensures var u := AfterTransport(t, receiver, counter, cipher, 0, now);
      && |u.peers| == |t.peers| && u.peers[i].session.lastReceived == now
      && u.peers[i].lastSent == now && u.peers[i].connected
  {
    hide Select, Expired, Open;
  }

  /** So it puts off the keepalive that the keepalive thread would have sent. */
  lemma ForgedSilences(w: World, i: nat, receiver: nat, counter: nat, cipher: Term, now: nat, later: nat)
    requires RingsShaped(w.tun) && Select(w.tun, receiver) == Current(i) && IsForged(w.tun, receiver, counter, cipher)
    requires !Expired(w.tun.peers[i].session, now) && w.tun.keepaliveInterval == 0
    requires !Stale(w.tun.peers[i].session, later) && Elapsed(later, now) < KEEPALIVE_TIMEOUT * SECOND
    ensures var u := w.(tun := AfterTransport(w.tun, receiver, counter, cipher, 0, now));
      |u.tun.peers| == |w.tun.peers| && AfterTickPeer(u, i, later) == u
  {
    ForgedKeepalive(w.tun, i, receiver, counter, cipher, now);
    hide Select, Expired, Open, Elapsed;
  }
}
