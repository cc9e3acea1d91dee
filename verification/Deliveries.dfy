/**
 Which payloads the receive thread hands on, over whole runs.  Every session's
 replay window has seen exactly the counters that arrived under its key since
 the run began, wherever the session has been moved meanwhile, so the window's
 theorems decide each arrival.
 */
module Deliveries {
  import opened Options
  import opened Noise
  import opened Tunnel
  import opened TunnelInvariants
  import opened Nonces
  import opened NonceRuns
  import Replay
  import ReplayRuns

  // Receiving keys.

  /** The own ephemeral in a receiving key: four KDF layers down for a responder, seven for an initiator */
  function Taker(key: Term): Option<nat> {
    if !key.Kdf? then None
    else if key.index == 1 then PublicId(Under(key, 4))
    else PublicId(Under(key, 7))
  }

  lemma ResponderTaker(secret: nat, psk: Term, m: Init, ephemeral: nat, index: nat)
    requires Respond(secret, psk, m, ephemeral, index).Some?
    ensures Taker(ResponderKeys(Respond(secret, psk, m, ephemeral, index).value.outcome).receiving) == Some(ephemeral)
  {
    var ck := Respond(secret, psk, m, ephemeral, index).value.outcome.ck;
    assert Under(Kdf(1, ck, Empty), 4) == Under(ck, 3) == Under(ck.key, 2) == Under(ck.key.key, 1) == ck.key.key.key;
  }

  lemma InitiatorTaker(secret: nat, psk: Term, p: Pending, r: Response)
    requires OwnPending(p)
    ensures Taker(InitiatorKeys(Finish(secret, psk, p.ephemeral, p.symmetric, r).0).receiving) == Some(p.ephemeral)
  {
    var ck := Finish(secret, psk, p.ephemeral, p.symmetric, r).0.ck;
    assert ck.key.key.key.key == p.symmetric.ck;
    assert Under(Kdf(2, ck, Empty), 7) == Under(ck, 6) == Under(ck.key, 5) == Under(ck.key.key, 4)
        == Under(ck.key.key.key, 3) == Under(p.symmetric.ck, 2);
  }

  predicate Taken(key: Term, used: set<nat>) { Taker(key).Some? && Taker(key).value in used }

  lemma ZeroTaker()
    ensures Taker(Zero) == None
  {}

  // What the windows have seen.

  /** A payload that opened under this key, with this counter */
  datatype Hearing = Hearing(key: Term, counter: nat)

  /** The counters heard under one key, in order */
  function Of(heard: seq<Hearing>, key: Term): seq<nat> {
    if heard == [] then []
    else
      var n := |heard| - 1;
      Of(heard[..n], key) + (if heard[n].key == key then [heard[n].counter] else [])
  }

  lemma OfAppend(heard: seq<Hearing>, h: Hearing, key: Term)
    ensures Of(heard + [h], key) == Of(heard, key) + (if h.key == key then [h.counter] else [])
  {
    assert (heard + [h])[..|heard|] == heard;
  }

  lemma {:induction false} OfNone(heard: seq<Hearing>, key: Term)
    requires forall n | 0 <= n < |heard| :: heard[n].key != key
    ensures Of(heard, key) == []
  {
    if heard != [] { OfNone(heard[..|heard| - 1], key); }
  }

  /** A place for a session */
  predicate IsPlace(t: Tunnel, c: Choice) {
    !c.NoSession? && (c.Current? || c.Previous? ==> c.peer < |t.peers|)
  }

  /** The step puts a payload's counter to the window of the session it selects. */
  predicate Presents(w: World, step: Step) {
    && step.ReceiveTransport? && step.length > 0
    && var c := Select(w.tun, step.receiver);
       && !c.NoSession? && !Expired(SessionOf(w.tun, c), step.now)
       && Open(SessionOf(w.tun, c).receivingKey, step.counter, step.cipher, Empty).Some?
  }

  function HeardNext(w: World, heard: seq<Hearing>, step: Step): seq<Hearing> {
    if Presents(w, step)
    then heard + [Hearing(SessionOf(w.tun, Select(w.tun, step.receiver)).receivingKey, step.counter)]
    else heard
  }

  // The invariant.

  predicate SeesOwn(s: Session, heard: seq<Hearing>, used: set<nat>) {
    s.receivingKey == Zero || (Taken(s.receivingKey, used) && s.presented == Of(heard, s.receivingKey))
  }

  ghost predicate Untaken(w: World, heard: seq<Hearing>, ephemeral: nat) {
    && (forall n | 0 <= n < |heard| :: Taker(heard[n].key) != Some(ephemeral))
    && (forall c | IsPlace(w.tun, c) :: Taker(SessionOf(w.tun, c).receivingKey) != Some(ephemeral))
  }

  ghost predicate Apart(w: World) {
    forall c, d | IsPlace(w.tun, c) && IsPlace(w.tun, d) && c != d ::
      SessionOf(w.tun, c).receivingKey == SessionOf(w.tun, d).receivingKey ==> SessionOf(w.tun, c).receivingKey == Zero
  }

  ghost predicate HearInv(w: World, heard: seq<Hearing>) {
    && (forall c | IsPlace(w.tun, c) :: SeesOwn(SessionOf(w.tun, c), heard, w.used))
    && Apart(w)
    && (forall n | 0 <= n < |heard| :: heard[n].key == Zero || Taken(heard[n].key, w.used))
    && (w.connecting.Some? ==>
          && OwnPending(w.connecting.value) && w.connecting.value.ephemeral in w.used
          && Untaken(w, heard, w.connecting.value.ephemeral))
  }

  lemma FreshUntaken(w: World, heard: seq<Hearing>, ephemeral: nat)
    requires HearInv(w, heard) && ephemeral !in w.used
    ensures Untaken(w, heard, ephemeral)
  {
    ZeroTaker();
    hide Taker;
    forall c | IsPlace(w.tun, c)
      ensures Taker(SessionOf(w.tun, c).receivingKey) != Some(ephemeral)
    {
      assert SeesOwn(SessionOf(w.tun, c), heard, w.used);
    }
  }

  // The ways in which a step changes the sessions.

  /** Key and window are the same, or there is no key. */
  predicate Kept(s: Session, t: Session) {
    t.receivingKey == Zero || (t.receivingKey == s.receivingKey && t.presented == s.presented)
  }

  /** Every place but c and d keeps its session's key and window, or has none. */
  ghost predicate OthersKeep(w: World, v: World, c: Choice, d: Choice) {
    && |w.tun.peers| <= |v.tun.peers| && w.used <= v.used
    && forall e | IsPlace(v.tun, e) && e != c && e != d ::
      if IsPlace(w.tun, e) then Kept(SessionOf(w.tun, e), SessionOf(v.tun, e))
      else SessionOf(v.tun, e).receivingKey == Zero
  }

  lemma QuietHears(w: World, v: World, heard: seq<Hearing>)
    requires HearInv(w, heard) && OthersKeep(w, v, NoSession, NoSession)
    requires v.connecting.Some? ==> v.connecting == w.connecting
    ensures HearInv(v, heard)
  {
    ZeroTaker();
    hide Taker, Of;
    forall c | IsPlace(v.tun, c)
      ensures SeesOwn(SessionOf(v.tun, c), heard, v.used)
    {
      if IsPlace(w.tun, c) { assert SeesOwn(SessionOf(w.tun, c), heard, w.used); }
    }
    forall c, d | IsPlace(v.tun, c) && IsPlace(v.tun, d) && c != d
      && SessionOf(v.tun, c).receivingKey == SessionOf(v.tun, d).receivingKey
      ensures SessionOf(v.tun, c).receivingKey == Zero
    {
      if IsPlace(w.tun, c) && IsPlace(w.tun, d) {
        assert Kept(SessionOf(w.tun, c), SessionOf(v.tun, c)) && Kept(SessionOf(w.tun, d), SessionOf(v.tun, d));
      }
    }
    if v.connecting.Some? {
      forall c | IsPlace(v.tun, c)
        ensures Taker(SessionOf(v.tun, c).receivingKey) != Some(v.connecting.value.ephemeral)
      {
        if IsPlace(w.tun, c) { assert Taker(SessionOf(w.tun, c).receivingKey) != Some(v.connecting.value.ephemeral); }
      }
    }
  }

  /** The window at place c sees one more counter. */
  lemma PresentHears(w: World, v: World, heard: seq<Hearing>, c: Choice, x: nat)
    requires HearInv(w, heard) && IsPlace(w.tun, c) && IsPlace(v.tun, c) && OthersKeep(w, v, c, c)
    requires v.connecting == w.connecting && v.used == w.used
    requires SessionOf(v.tun, c).receivingKey == SessionOf(w.tun, c).receivingKey
    requires SessionOf(v.tun, c).presented == SessionOf(w.tun, c).presented + [x]
    ensures HearInv(v, heard + [Hearing(SessionOf(w.tun, c).receivingKey, x)])
  {
    ZeroTaker();
    hide Taker, Of;
    var h := Hearing(SessionOf(w.tun, c).receivingKey, x);
    assert SeesOwn(SessionOf(w.tun, c), heard, w.used);
    forall e | IsPlace(v.tun, e)
      ensures SeesOwn(SessionOf(v.tun, e), heard + [h], v.used)
    {
      OfAppend(heard, h, SessionOf(v.tun, e).receivingKey);
      if IsPlace(w.tun, e) { assert SeesOwn(SessionOf(w.tun, e), heard, w.used); }
      if e != c && IsPlace(w.tun, e) { assert Kept(SessionOf(w.tun, e), SessionOf(v.tun, e)); }
    }
    StillApart(w, v, c);
    if v.connecting.Some? { StillUntaken(w, v, heard, c, v.connecting.value.ephemeral); }
  }

  lemma StillApart(w: World, v: World, c: Choice)
    requires Apart(w) && IsPlace(w.tun, c) && IsPlace(v.tun, c) && OthersKeep(w, v, c, c)
    requires SessionOf(v.tun, c).receivingKey == SessionOf(w.tun, c).receivingKey
    ensures Apart(v)
  {
    forall a, b | IsPlace(v.tun, a) && IsPlace(v.tun, b) && a != b
      && SessionOf(v.tun, a).receivingKey == SessionOf(v.tun, b).receivingKey
      ensures SessionOf(v.tun, a).receivingKey == Zero
    {
      OneKept(w, v, c, a);
      OneKept(w, v, c, b);
    }
  }

  lemma OneKept(w: World, v: World, c: Choice, a: Choice)
    requires IsPlace(w.tun, c) && IsPlace(v.tun, c) && OthersKeep(w, v, c, c) && IsPlace(v.tun, a)
    requires SessionOf(v.tun, c).receivingKey == SessionOf(w.tun, c).receivingKey
    ensures SessionOf(v.tun, a).receivingKey == Zero
      || (IsPlace(w.tun, a) && SessionOf(v.tun, a).receivingKey == SessionOf(w.tun, a).receivingKey)
  {}

  lemma StillUntaken(w: World, v: World, heard: seq<Hearing>, c: Choice, ephemeral: nat)
    requires Untaken(w, heard, ephemeral) && IsPlace(w.tun, c) && IsPlace(v.tun, c) && OthersKeep(w, v, c, c)
    requires SessionOf(v.tun, c).receivingKey == SessionOf(w.tun, c).receivingKey
    ensures forall x :: Untaken(v, heard + [Hearing(SessionOf(w.tun, c).receivingKey, x)], ephemeral)
  {
    ZeroTaker();
    hide Taker;
    forall a | IsPlace(v.tun, a)
      ensures Taker(SessionOf(v.tun, a).receivingKey) != Some(ephemeral)
    {
      OneKept(w, v, c, a);
    }
  }

  /** Place c gets a key of its own; its old session goes to place d, or that one stays. */
  ghost predicate Installs(w: World, v: World, c: Choice, d: Choice) {
    && c != d && |v.tun.peers| == |w.tun.peers| && OthersKeep(w, v, c, d)
    && IsPlace(w.tun, c) && IsPlace(v.tun, c) && IsPlace(w.tun, d) && IsPlace(v.tun, d)
    && (Kept(SessionOf(w.tun, c), SessionOf(v.tun, d)) || Kept(SessionOf(w.tun, d), SessionOf(v.tun, d)))
  }

  /** Where the session at another place than c was before */
  ghost function Source(w: World, v: World, c: Choice, d: Choice, e: Choice): (o: Choice)
    requires Installs(w, v, c, d) && IsPlace(v.tun, e) && e != c
    ensures IsPlace(w.tun, o) && Kept(SessionOf(w.tun, o), SessionOf(v.tun, e))
  {
    if e != d then e else if Kept(SessionOf(w.tun, c), SessionOf(v.tun, d)) then c else d
  }

  lemma InstallHears(w: World, v: World, heard: seq<Hearing>, c: Choice, d: Choice, ephemeral: nat)
    requires HearInv(w, heard) && Installs(w, v, c, d)
    requires SessionOf(v.tun, c).presented == [] && Taker(SessionOf(v.tun, c).receivingKey) == Some(ephemeral)
    requires Untaken(w, heard, ephemeral) && ephemeral in v.used
    requires v.connecting.Some? ==> v.connecting == w.connecting && v.connecting.value.ephemeral != ephemeral
    ensures HearInv(v, heard)
  {
    ZeroTaker();
    InstallPlaces(w, v, c, d);
    hide Taker, Of, Installs;
    OfNone(heard, SessionOf(v.tun, c).receivingKey);
    forall e | IsPlace(v.tun, e)
      ensures SeesOwn(SessionOf(v.tun, e), heard, v.used)
    {
      if e != c { assert SeesOwn(SessionOf(w.tun, Source(w, v, c, d, e)), heard, w.used); }
    }
    InstallApart(w, v, heard, c, d, ephemeral);
    if v.connecting.Some? {
      forall e | IsPlace(v.tun, e)
        ensures Taker(SessionOf(v.tun, e).receivingKey) != Some(v.connecting.value.ephemeral)
      {
        if e != c { assert Kept(SessionOf(w.tun, Source(w, v, c, d, e)), SessionOf(v.tun, e)); }
      }
    }
  }

  lemma InstallPlaces(w: World, v: World, c: Choice, d: Choice)
    requires Installs(w, v, c, d)
    ensures IsPlace(v.tun, c) && w.used <= v.used
  {}

  lemma InstallApart(w: World, v: World, heard: seq<Hearing>, c: Choice, d: Choice, ephemeral: nat)
    requires Apart(w) && Installs(w, v, c, d) && IsPlace(v.tun, c)
    requires Taker(SessionOf(v.tun, c).receivingKey) == Some(ephemeral) && Untaken(w, heard, ephemeral)
    ensures Apart(v)
  {
    ZeroTaker();
    hide Taker, Installs;
    forall a, b | IsPlace(v.tun, a) && IsPlace(v.tun, b) && a != b
      && SessionOf(v.tun, a).receivingKey == SessionOf(v.tun, b).receivingKey
      ensures SessionOf(v.tun, a).receivingKey == Zero
    {
      if a == c {
        assert Kept(SessionOf(w.tun, Source(w, v, c, d, b)), SessionOf(v.tun, b));
      } else if b == c {
        assert Kept(SessionOf(w.tun, Source(w, v, c, d, a)), SessionOf(v.tun, a));
      } else {
        var o, p := Source(w, v, c, d, a), Source(w, v, c, d, b);
        assert o != p;
      }
    }
  }

  // Every step, with fresh ephemerals.

  lemma ConnectingHeard(w: World, heard: seq<Hearing>)
    requires HearInv(w, heard)
    ensures w.connecting.Some? ==>
      && w.connecting.value.ephemeral in w.used && OwnPending(w.connecting.value)
      && Untaken(w, heard, w.connecting.value.ephemeral)
  {}

  lemma InitProcessHears(w: World, heard: seq<Hearing>, m: Init, ephemeral: nat, index: nat, now: nat)
    requires HearInv(w, heard) && ephemeral !in w.used
    ensures HearInv(AfterInitProcess(w, m, ephemeral, index, now).0, heard)
  {
    hide HearInv, Taker, Respond, Untaken;
    var v := AfterInitProcess(w, m, ephemeral, index, now).0;
    if Respond(w.tun.secret, w.tun.psk, m, ephemeral, index).None? {
      QuietHears(w, v, heard);
    } else {
      var a := Respond(w.tun.secret, w.tun.psk, m, ephemeral, index).value;
      ResponderTaker(w.tun.secret, w.tun.psk, m, ephemeral, index);
      FreshUntaken(w, heard, ephemeral);
      ConnectingHeard(w, heard);
      match FindByKey(w.tun, a.peerStatic)
      case Some(i) => InstallHears(w, v, heard, Current(i), Previous(i), ephemeral);
      case None => InstallHears(w, v, heard, Legacy, LegacyPrevious, ephemeral);
    }
  }

  lemma PeerSentHears(w: World, heard: seq<Hearing>, i: nat, accepted: bool, now: nat)
    requires HearInv(w, heard) && i < |w.tun.peers|
    ensures HearInv(PeerSent(w, i, accepted, now), heard)
  {
    hide HearInv;
    QuietHears(w, PeerSent(w, i, accepted, now), heard);
  }

  lemma ReceiveInitHears(w: World, heard: seq<Hearing>, m: Init, ephemeral: nat, index: nat, now: nat)
    requires HearInv(w, heard) && ephemeral !in w.used
    ensures HearInv(AfterReceiveInit(w, m, ephemeral, index, now), heard)
  {
    hide HearInv, AfterInitProcess, PeerSent;
    InitProcessHears(w, heard, m, ephemeral, index, now);
    var (v, ok) := AfterInitProcess(w, m, ephemeral, index, now);
    var i := Find(v.tun.peers, (p: Peer) => p.connected && p.session.valid);
    if ok && i.Some? { PeerSentHears(v, heard, i.value, true, now); }
  }

  lemma ConnectPassiveHears(w: World, heard: seq<Hearing>, m: Init, ephemeral: nat, index: nat, now: nat)
    requires HearInv(w, heard) && ephemeral !in w.used
    ensures HearInv(AfterConnectPassive(w, m, ephemeral, index, now), heard)
  {
    hide HearInv, AfterInitProcess;
    if Awaiting(w, false) {
      InitProcessHears(w, heard, m, ephemeral, index, now);
      var v := AfterInitProcess(w, m, ephemeral, index, now).0;
      QuietHears(v, AfterConnectPassive(w, m, ephemeral, index, now), heard);
    }
  }

  lemma ResponseHears(w: World, heard: seq<Hearing>, r: Response, now: nat)
    requires HearInv(w, heard) && w.call.Busy? && w.connecting.Some?
    ensures HearInv(AfterHandshakeResponse(w, r, now), heard)
  {
    hide HearInv, Taker, Finish, Untaken;
    var p, v := w.connecting.value, AfterHandshakeResponse(w, r, now);
    if v.installs != w.installs {
      ConnectingHeard(w, heard);
      InitiatorTaker(w.tun.secret, w.tun.psk, p, r);
      InstallHears(w, v, heard, Legacy, LegacyPrevious, p.ephemeral);
    } else {
      QuietHears(w, v, heard);
    }
  }

  lemma ConnectInitHears(w: World, heard: seq<Hearing>, ephemeral: nat, index: nat, stamp: nat, rekey: bool)
    requires HearInv(w, heard) && ephemeral !in w.used
    ensures HearInv(AfterConnectInit(w, ephemeral, index, stamp, rekey), heard)
  {
    if MayAttempt(w, rekey) {
      hide Taker, Of, InitState, Attempting;
      var v := AfterConnectInit(w, ephemeral, index, stamp, rekey);
      InitOwner(w.tun.secret, w.tun.peerPublic, ephemeral, index, stamp);
      FreshUntaken(w, heard, ephemeral);
      QuietHears(w, v.(connecting := None), heard);
      StartsHearing(w, v, heard);
    }
  }

  lemma StartsHearing(w: World, v: World, heard: seq<Hearing>)
    requires HearInv(v.(connecting := None), heard) && v.connecting.Some? && OthersKeep(w, v, NoSession, NoSession)
    requires OwnPending(v.connecting.value) && v.connecting.value.ephemeral in v.used
    requires Untaken(w, heard, v.connecting.value.ephemeral)
    ensures HearInv(v, heard)
  {
    ZeroTaker();
    hide Taker, Of;
    var u := v.(connecting := None);
    forall c | IsPlace(v.tun, c)
      ensures SeesOwn(SessionOf(v.tun, c), heard, v.used)
      ensures Taker(SessionOf(v.tun, c).receivingKey) != Some(v.connecting.value.ephemeral)
    {
      assert SeesOwn(SessionOf(u.tun, c), heard, u.used);
      if IsPlace(w.tun, c) { assert Kept(SessionOf(w.tun, c), SessionOf(v.tun, c)); }
    }
    forall c, d | IsPlace(v.tun, c) && IsPlace(v.tun, d) && c != d
      && SessionOf(v.tun, c).receivingKey == SessionOf(v.tun, d).receivingKey
      ensures SessionOf(v.tun, c).receivingKey == Zero
    {
      assert SessionOf(u.tun, c).receivingKey == SessionOf(u.tun, d).receivingKey;
    }
  }

  lemma OpenedHears(s: Session, counter: nat, cipher: Term, length: nat, now: nat)
    requires |s.replay.ring| == Replay.WORDS
    ensures var t := Opened(s, counter, cipher, length, now).0;
      && t.receivingKey == s.receivingKey
      && t.presented == s.presented
         + (if length > 0 && Open(s.receivingKey, counter, cipher, Empty).Some? then [counter] else [])
  {
    hide Open;
  }

  /** A transport packet changes the window of the session it selects, and no other. */
  lemma TransportPlaces(t: Tunnel, receiver: nat, counter: nat, cipher: Term, length: nat, now: nat, e: Choice)
    requires RingsShaped(t) && IsPlace(t, e)
    ensures var u, c := AfterTransport(t, receiver, counter, cipher, length, now), Select(t, receiver);
      && |u.peers| == |t.peers|
      && if e != c then SessionOf(u, e) == SessionOf(t, e)
         else if Expired(SessionOf(t, c), now) then SessionOf(u, e) == SessionOf(t, e) || SessionOf(u, e) == WIPED
         else SessionOf(u, e) == Opened(SessionOf(t, e), counter, cipher, length, now).0
  {
    var c := Select(t, receiver);
    hide Select, Opened, Expired;
    if c.Current? || c.Previous? {
      PeerPlaces(t.peers[c.peer], counter, cipher, length, now);
      hide OnCurrent, OnPrevious;
    }
  }

  lemma PeerPlaces(p: Peer, counter: nat, cipher: Term, length: nat, now: nat)
    requires |p.session.replay.ring| == Replay.WORDS && |p.prevSession.replay.ring| == Replay.WORDS
    ensures var q := OnCurrent(p, counter, cipher, length, now);
      && q.prevSession == p.prevSession
      && q.session == if Expired(p.session, now) then p.session else Opened(p.session, counter, cipher, length, now).0
    ensures var q := OnPrevious(p, counter, cipher, length, now);
      && q.session == p.session
      && q.prevSession
      == if Expired(p.prevSession, now) then WIPED else Opened(p.prevSession, counter, cipher, length, now).0
  {
    hide Opened, Expired;
  }

  lemma TransportHears(w: World, heard: seq<Hearing>, step: Step)
    requires HearInv(w, heard) && RingsShaped(w.tun) && step.ReceiveTransport?
    ensures HearInv(w.(tun := AfterTransport(w.tun, step.receiver, step.counter, step.cipher, step.length, step.now)),
                    HeardNext(w, heard, step))
  {
    hide HearInv, Opened, Expired, Select, AfterTransport, Open;
    var v := w.(tun := AfterTransport(w.tun, step.receiver, step.counter, step.cipher, step.length, step.now));
    var c := Select(w.tun, step.receiver);
    TransportPlaces(w.tun, step.receiver, step.counter, step.cipher, step.length, step.now, Legacy);
    if !c.NoSession? { OpenedHears(SessionOf(w.tun, c), step.counter, step.cipher, step.length, step.now); }
    forall e | IsPlace(v.tun, e)
      ensures IsPlace(w.tun, e)
      ensures e != c || !Presents(w, step) ==> Kept(SessionOf(w.tun, e), SessionOf(v.tun, e))
      ensures e == c && Presents(w, step) ==>
        && SessionOf(v.tun, e).receivingKey == SessionOf(w.tun, e).receivingKey
        && SessionOf(v.tun, e).presented == SessionOf(w.tun, e).presented + [step.counter]
    {
      TransportPlaces(w.tun, step.receiver, step.counter, step.cipher, step.length, step.now, e);
    }
    if Presents(w, step) { PresentHears(w, v, heard, c, step.counter); } else { QuietHears(w, v, heard); }
  }

  /** The steps that neither install nor hear */
  predicate Plain(step: Step) {
    || step.AddPeer? || step.Output? || step.TickPeer? || step.TickLegacy? || step.AttemptFailed? || step.Return?
    || step.Send?
  }

  lemma PlainHears(w: World, heard: seq<Hearing>, step: Step)
    requires HearInv(w, heard) && RingsShaped(w.tun) && Plain(step)
    ensures HearInv(Next(w, step), heard)
  {
    hide HearInv, RingsShaped, InitState, PeerSent, FindByIp;
    if step.Output? {
      OutputHears(w, heard, step);
    } else if step.TickPeer? {
      TickPeerHears(w, heard, step);
    } else {
      QuietHears(w, Next(w, step), heard);
    }
  }

  lemma OutputHears(w: World, heard: seq<Hearing>, step: Step)
    requires HearInv(w, heard) && RingsShaped(w.tun) && step.Output?
    ensures HearInv(Next(w, step), heard)
  {
    hide HearInv, RingsShaped, InitState;
    QuietHears(w, Next(w, step), heard);
  }

  lemma TickPeerHears(w: World, heard: seq<Hearing>, step: Step)
    requires HearInv(w, heard) && RingsShaped(w.tun) && step.TickPeer?
    ensures HearInv(Next(w, step), heard)
  {
    hide HearInv, RingsShaped;
    QuietHears(w, Next(w, step), heard);
  }

  lemma MoreHears(w: World, heard: seq<Hearing>, step: Step)
    requires Inv(w) && RingsShaped(w.tun) && HearInv(w, heard) && Fresh(w, step)
    requires !Plain(step) && !step.ReceiveTransport?
    ensures HearInv(Next(w, step), heard)
  {
    if step.ReceiveResponse? { ResponsesIgnored(w, step.response, step.now); }
    hide HearInv, Inv, RingsShaped, AfterReceiveInit, AfterReceiveResponse, AfterConnectInit, AfterConnectPassive,
      AfterHandshakeResponse;
    if step.ReceiveInit? {
      ReceiveInitHears(w, heard, step.init, step.ephemeral, step.index, step.now);
    } else if step.ConnectInit? {
      ConnectInitHears(w, heard, step.ephemeral, step.index, step.stamp, step.rekey);
    } else if step.ConnectPassive? {
      ConnectPassiveHears(w, heard, step.init, step.ephemeral, step.index, step.now);
    } else if step.ConnectResponse? {
      if Awaiting(w, false) { ResponseHears(w, heard, step.response, step.now); }
    } else if step.RekeyResponse? {
      if Awaiting(w, true) && w.tun.pendingResponse.Some? {
        ResponseHears(w, heard, w.tun.pendingResponse.value, step.now);
      }
    } else {
      QuietHears(w, Next(w, step), heard);
    }
  }

  /** Every step keeps the invariant. */
  lemma NextHears(w: World, heard: seq<Hearing>, step: Step)
    requires Inv(w) && RingsShaped(w.tun) && HearInv(w, heard) && Fresh(w, step)
    ensures HearInv(Next(w, step), HeardNext(w, heard, step))
  {
    if step.ReceiveTransport? {
      TransportHears(w, heard, step);
      hide HearInv, Inv, RingsShaped, AfterTransport, HeardNext;
    } else {
      hide HearInv, Inv, RingsShaped, Next, Fresh;
      if Plain(step) { PlainHears(w, heard, step); } else { MoreHears(w, heard, step); }
    }
  }

  // Runs.

  /** What has been heard when step n is made */
  ghost function Heard(c: Config, steps: seq<Step>, n: nat): seq<Hearing>
    requires n <= |steps|
  {
    if n == 0 then [] else HeardNext(At(c, steps, n - 1), Heard(c, steps, n - 1), steps[n - 1])
  }

  lemma OriginHears(c: Config)
    ensures HearInv(Origin(c), [])
  {}

  lemma {:induction false} RunHears(c: Config, steps: seq<Step>, n: nat)
    requires FreshRun(c, steps) && n <= |steps|
    ensures HearInv(At(c, steps, n), Heard(c, steps, n))
  {
    hide HearInv, Inv, Next, Fresh, RingsShaped, HeardNext;
    if n == 0 {
      OriginHears(c);
    } else {
      RunHears(c, steps, n - 1);
      AtNext(c, steps, n - 1);
      NextHears(At(c, steps, n - 1), Heard(c, steps, n - 1), steps[n - 1]);
    }
  }

  /** The session that a transport packet selects */
  ghost predicate Reaches(c: Config, steps: seq<Step>, n: nat, key: Term) {
    && n < |steps| && steps[n].ReceiveTransport? && key != Zero
    && var w := At(c, steps, n);
       var choice := Select(w.tun, steps[n].receiver);
       !choice.NoSession? && SessionOf(w.tun, choice).receivingKey == key
  }

  /** It carries a payload sealed under the session's key, with the counter it shows. */
  predicate Genuine(step: Step, key: Term) {
    step.ReceiveTransport? && step.length > 0 && Open(key, step.counter, step.cipher, Empty).Some?
  }

  ghost predicate InLife(c: Config, steps: seq<Step>, n: nat, key: Term)
    requires Reaches(c, steps, n, key)
  {
    var w := At(c, steps, n);
    !Expired(SessionOf(w.tun, Select(w.tun, steps[n].receiver)), steps[n].now)
  }

  ghost predicate DeliversAt(c: Config, steps: seq<Step>, n: nat)
    requires n < |steps| && steps[n].ReceiveTransport?
  {
    var w, step := At(c, steps, n), steps[n];
    InvShaped(w);
    Delivers(w.tun, step.receiver, step.counter, step.cipher, step.length, step.now)
  }

  /** Delivery from one session, whose window has the history it should have */
  lemma DeliversOne(w: World, step: Step, calls: seq<nat>)
    requires RingsShaped(w.tun) && step.ReceiveTransport? && !Select(w.tun, step.receiver).NoSession?
    requires var s := SessionOf(w.tun, Select(w.tun, step.receiver)); s.replay == ReplayRuns.Run(calls)
    ensures var s := SessionOf(w.tun, Select(w.tun, step.receiver));
      Delivers(w.tun, step.receiver, step.counter, step.cipher, step.length, step.now)
      <==> Genuine(step, s.receivingKey) && !Expired(s, step.now) && ReplayRuns.Answer(calls + [step.counter], |calls|)
  {
    hide Replay.Step, ReplayRuns.Run, Select, Expired, Open, RingsShaped;
    assert (calls + [step.counter])[..|calls|] == calls;
  }

  lemma WindowAt(w: World, c: Choice)
    requires Inv(w) && IsPlace(w.tun, c)
    ensures SessionOf(w.tun, c).replay == ReplayRuns.Run(SessionOf(w.tun, c).presented)
  {
    hide ReplayRuns.Run;
    if c.Current? || c.Previous? { assert PeerInv(w.tun.peers[c.peer], w.installs); }
  }

  /**
   In every run with fresh ephemerals, for every transport packet that reaches a
   session with keys: it is delivered exactly if it is genuine, the session is
   within its lifetime, and the replay window accepts its counter after those that
   have arrived under the same key before.
   */
  lemma Verdict(c: Config, steps: seq<Step>, n: nat, key: Term)
    requires FreshRun(c, steps) && Reaches(c, steps, n, key)
    ensures var calls := Of(Heard(c, steps, n), key);
      DeliversAt(c, steps, n) <==>
        Genuine(steps[n], key) && InLife(c, steps, n, key) && ReplayRuns.Answer(calls + [steps[n].counter], |calls|)
  {
    RunHears(c, steps, n);
    var w, step := At(c, steps, n), steps[n];
    var choice := Select(w.tun, step.receiver);
    assert SeesOwn(SessionOf(w.tun, choice), Heard(c, steps, n), w.used);
    hide At, Inv, Heard, Of, Taker, FreshRun, HearInv, Select, Delivers, ReplayRuns.Answer, Genuine;
    InvShaped(w);
    WindowAt(w, choice);
    DeliversOne(w, step, SessionOf(w.tun, choice).presented);
  }

  /** In full, for a genuine packet within the session's lifetime, in whatever order the packets come */
  lemma AnyOrder(c: Config, steps: seq<Step>, n: nat, key: Term)
    requires FreshRun(c, steps) && Reaches(c, steps, n, key) && Genuine(steps[n], key) && InLife(c, steps, n, key)
    ensures var x, seen := steps[n].counter, Of(Heard(c, steps, n), key);
      var calls, j := seen + [x], |seen|;
      DeliversAt(c, steps, n) <==>
        && x < Replay.LIMIT && ReplayRuns.High(calls, j) <= x + Replay.WINDOW
        && !ReplayRuns.TakenBefore(calls, j, ReplayRuns.Key(x, ReplayRuns.High(calls, j)))
  {
    hide At, Inv, Heard, Of, FreshRun, Select, DeliversAt, InLife, Genuine, ReplayRuns.Answer, ReplayRuns.High;
    hide ReplayRuns.TakenBefore, ReplayRuns.Key;
    var seen := Of(Heard(c, steps, n), key);
    Verdict(c, steps, n, key);
    ReplayRuns.ExactAnswer(seen + [steps[n].counter], |seen|);
  }

  /** What has been heard under a key only grows. */
  lemma {:induction false} HeardGrows(c: Config, steps: seq<Step>, m: nat, n: nat, key: Term)
    requires m <= n <= |steps|
    ensures Of(Heard(c, steps, m), key) <= Of(Heard(c, steps, n), key)
  {
    hide At, Inv, Presents, Of;
    if m < n {
      HeardGrows(c, steps, m, n - 1, key);
      var heard, w, step := Heard(c, steps, n - 1), At(c, steps, n - 1), steps[n - 1];
      if Presents(w, step) {
        PresentsWhere(w, step);
        OfAppend(heard, Hearing(SessionOf(w.tun, Select(w.tun, step.receiver)).receivingKey, step.counter), key);
      }
    }
  }

  lemma PresentsWhere(w: World, step: Step)
    requires Presents(w, step)
    ensures step.ReceiveTransport? && !Select(w.tun, step.receiver).NoSession?
  {}

  /** A packet that is delivered is heard. */
  lemma DeliveredHeard(c: Config, steps: seq<Step>, m: nat, key: Term)
    requires FreshRun(c, steps) && Reaches(c, steps, m, key) && DeliversAt(c, steps, m)
    ensures var seen := Of(Heard(c, steps, m), key);
      && Of(Heard(c, steps, m + 1), key) == seen + [steps[m].counter]
      && ReplayRuns.Answer(seen + [steps[m].counter], |seen|)
  {
    Verdict(c, steps, m, key);
    var w, step := At(c, steps, m), steps[m];
    hide At, Inv, FreshRun, DeliversAt, Of, ReplayRuns.Answer, Select, Expired, Open;
    OfAppend(Heard(c, steps, m), Hearing(key, step.counter), key);
  }

  lemma SameAnswer(a: seq<nat>, b: seq<nat>, i: nat)
    requires i < |a| && a <= b && ReplayRuns.Answer(a, i)
    ensures ReplayRuns.Answer(b, i)
  {
    hide ReplayRuns.Run, Replay.Step;
    assert a[..i] == b[..i];
  }

  /**
   At most once, over runs and wherever the session is by then: a counter that was
   delivered is delivered again under the same key exactly in the case in which the
   replay ring forgets it; and never while its word is among the last 128.
   */
  lemma DeliveredAgain(c: Config, steps: seq<Step>, m: nat, n: nat, key: Term)
    requires FreshRun(c, steps) && m < n && Reaches(c, steps, m, key) && Reaches(c, steps, n, key)
    requires DeliversAt(c, steps, m) && steps[n].counter == steps[m].counter
    requires Genuine(steps[n], key) && InLife(c, steps, n, key)
    ensures var x, seen := steps[n].counter, Of(Heard(c, steps, n), key);
      var calls, j := seen + [x], |seen|;
      && (DeliversAt(c, steps, n) <==>
            && ReplayRuns.Aliased(x, ReplayRuns.High(calls, j))
            && ReplayRuns.High(calls, j) < x + Replay.WINDOW
            && forall k | 0 <= k < j && calls[k] == x ::
                 Replay.Word(ReplayRuns.High(calls, k + 1)) < Replay.Word(ReplayRuns.High(calls, j)))
      && (Replay.Word(ReplayRuns.High(calls, j)) < Replay.Word(x) + Replay.WORDS ==> !DeliversAt(c, steps, n))
  {
    hide At, Inv, Heard, Of, FreshRun, Select, DeliversAt, InLife, Genuine, ReplayRuns.Answer, ReplayRuns.High;
    var x, before, seen := steps[n].counter, Of(Heard(c, steps, m), key), Of(Heard(c, steps, n), key);
    var calls, i, j := seen + [x], |before|, |seen|;
    DeliveredHeard(c, steps, m, key);
    HeardGrows(c, steps, m + 1, n, key);
    SameAnswer(before + [x], calls, i);
    Verdict(c, steps, n, key);
    ReplayRuns.AcceptedAgain(calls, i, j);
    if Replay.Word(ReplayRuns.High(calls, j)) < Replay.Word(x) + Replay.WORDS { ReplayRuns.NoReplay(calls, i, j); }
  }
}
