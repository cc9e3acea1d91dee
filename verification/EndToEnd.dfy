/**
 Two tunnels: a handshake between them installs one session at each end that
 belong together, and what one end then sends the other end delivers.
 */
module EndToEnd {
  import opened Options
  import opened Noise
  import opened Tunnel
  import opened TunnelInvariants
  import Replay
  import ReplayRuns

  /** The sessions of the two ends fit: keys and indices are crosswise equal. */
  predicate Matching(s: Session, t: Session) {
    && s.valid && t.valid
    && s.sendingKey == t.receivingKey && s.receivingKey == t.sendingKey
    && s.localIndex == t.remoteIndex && s.remoteIndex == t.localIndex
  }

  /**
   wg_connect at a, the receive thread at b with a in its peer table, and the
   response back at a: if the preshared keys agree, the session that a installs
   matches the one that b installs for that peer; if they do not, a installs none.
   */
  lemma HandshakeMatches(a: World, b: World, i: nat, ei: nat, er: nat, ix: nat, rx: nat, stamp: nat, now: nat)
    requires MayAttempt(a, false) && a.tun.peerPublic == Pub(b.tun.secret)
    requires FindByKey(b.tun, Pub(a.tun.secret)) == Some(i) && i < |b.tun.peers|
    ensures var a', b' := Connected(a, b, ei, er, ix, rx, stamp, now), Answering(a, b, ei, er, ix, rx, stamp, now);
      && |b'.tun.peers| == |b.tun.peers|
      && if a.tun.psk == b.tun.psk then
           && Matching(a'.tun.session, b'.tun.peers[i].session)
           && a'.tun.session.sendingCounter == 1
           && a'.sent == a.sent + [Packet(b'.tun.peers[i].session.receivingKey, 0, a.wipes)]
         else a'.installs == a.installs && a'.sent == a.sent
  {
    Exchange(a.tun.secret, b.tun.secret, ei, er, ix, rx, stamp, a.tun.psk, b.tun.psk);
    InitAccepted(a.tun.secret, b.tun.secret, ei, ix, stamp, b.tun.psk, er, rx);
    Fields(a.tun.secret, b.tun.secret, ei, ix, stamp, b.tun.psk, er, rx);
    var m := InitMessage(a.tun.secret, a.tun.peerPublic, ei, ix, stamp);
    var answer := Respond(b.tun.secret, b.tun.psk, m, er, rx).value;
    Completes(a, answer.response, ei, ix, stamp, now);
    Installs(b, m, i, er, rx, now);
    hide Respond, Finish, InitMessage, InitState, FindByKey, AfterConnectInit, AfterConnectResponse, AfterReturn;
    hide AfterReceiveInit;
  }

  /** The initiator's end: the session of a genuine response, and one keepalive on it */
  lemma Completes(a: World, r: Response, ei: nat, ix: nat, stamp: nat, now: nat)
    requires MayAttempt(a, false) && r.receiver == ix
    ensures var v := AfterReturn(AfterConnectResponse(AfterConnectInit(a, ei, ix, stamp, false), r, now), now);
      var (s, ok) := Finish(a.tun.secret, a.tun.psk, ei, InitState(a.tun.secret, a.tun.peerPublic, ei, ix, stamp), r);
      if ok then
        && v.tun.session.valid && v.tun.session.localIndex == ix && v.tun.session.remoteIndex == r.sender
        && v.tun.session.sendingKey == InitiatorKeys(s).sending
        && v.tun.session.receivingKey == InitiatorKeys(s).receiving
        && v.tun.session.sendingCounter == 1
        && v.sent == a.sent + [Packet(InitiatorKeys(s).sending, 0, a.wipes)]
      else v.installs == a.installs && v.sent == a.sent
  {
    hide Finish, InitState;
  }

  /** The responder's end: the session of a first message that it accepts from a table peer */
  lemma Installs(b: World, m: Init, i: nat, er: nat, rx: nat, now: nat)
    requires Respond(b.tun.secret, b.tun.psk, m, er, rx).Some?
    requires var answer := Respond(b.tun.secret, b.tun.psk, m, er, rx).value;
      FindByKey(b.tun, answer.peerStatic) == Some(i) && i < |b.tun.peers|
    ensures var v := AfterReceiveInit(b, m, er, rx, now);
      var keys := ResponderKeys(Respond(b.tun.secret, b.tun.psk, m, er, rx).value.outcome);
      && |v.tun.peers| == |b.tun.peers|
      && var s := v.tun.peers[i].session;
         && s.valid && s.localIndex == rx && s.remoteIndex == m.sender
         && s.sendingKey == keys.sending && s.receivingKey == keys.receiving
         && s.presented == [] && s.lastHandshake == now
  {
    hide Respond, FindByKey;
  }

  /** The indices that the two messages carry */
  lemma Fields(i: nat, r: nat, ei: nat, ix: nat, stamp: nat, psk: Term, er: nat, rx: nat)
    ensures var m := InitMessage(i, Pub(r), ei, ix, stamp);
      var a := Respond(r, psk, m, er, rx);
      m.sender == ix && a.Some? && a.value.response.sender == rx && a.value.response.receiver == ix
  {
    InitAccepted(i, r, ei, ix, stamp, psk, er, rx);
  }

  // Delivery in order.

  predicate Increasing(cs: seq<nat>) {
    forall i, j | 0 <= i < j < |cs| :: cs[i] < cs[j]
  }

  lemma {:induction false} HighBelow(cs: seq<nat>, k: nat)
    requires Increasing(cs) && k <= |cs|
    ensures ReplayRuns.High(cs, k) <= if k == 0 then 0 else cs[k - 1]
  {
    hide ReplayRuns.Run, ReplayRuns.MarkRun;
    ReplayRuns.HighOf(cs, k);
    if k == 0 {
      assert cs[..0] == [];
      NothingMarked();
    } else {
      HighBelow(cs, k - 1);
      ReplayRuns.HighOf(cs, k - 1);
      ReplayRuns.MarkRunStep(cs, k - 1);
    }
  }

  lemma NothingMarked()
    ensures ReplayRuns.MarkRun([]).high == 0
  {}

  /** Counters that arrive in increasing order are all accepted. */
  lemma InOrderAccepted(cs: seq<nat>, j: nat)
    requires Increasing(cs) && j < |cs| && cs[j] < Replay.LIMIT
    ensures ReplayRuns.Answer(cs, j)
  {
    hide ReplayRuns.Answer, ReplayRuns.High;
    forall k | 0 <= k <= j
      ensures !ReplayRuns.Aliased(cs[k], ReplayRuns.High(cs, k))
    {
      HighBelow(cs, k);
    }
    HighBelow(cs, j);
    ReplayRuns.ExactWindow(cs, j);
  }

  // Arrivals at a tunnel.

  /** A payload of the other end on its way in: its counter, content and length, and when it arrives */
  datatype Arrival = Arrival(counter: nat, plain: Term, length: nat, now: nat)

  /** It was sealed under the key that the receiving session opens with. */
  function Arriving(a: Arrival, receiver: nat, key: Term): Step {
    ReceiveTransport(receiver, a.counter, Sealed(key, a.counter, a.plain, Empty), a.length, a.now)
  }

  function ArrivingAll(arrivals: seq<Arrival>, receiver: nat, key: Term): (steps: seq<Step>)
    ensures |steps| == |arrivals|
  {
    if arrivals == [] then []
    else
      var n := |arrivals| - 1;
      ArrivingAll(arrivals[..n], receiver, key) + [Arriving(arrivals[n], receiver, key)]
  }

  /** In order, below the counter limit and with content */
  predicate InOrder(arrivals: seq<Arrival>) {
    && (forall j | 0 <= j < |arrivals| :: arrivals[j].counter < Replay.LIMIT && arrivals[j].length > 0)
    && (forall i, j | 0 <= i < j < |arrivals| :: arrivals[i].counter < arrivals[j].counter)
  }

  predicate InTime(a: Arrival, since: nat) { Elapsed(a.now, since) < REJECT_AFTER_TIME * SECOND }

  /** The counters of the arrivals that are in time */
  function TimelyCounters(arrivals: seq<Arrival>, since: nat): seq<nat> {
    if arrivals == [] then []
    else
      var n := |arrivals| - 1;
      TimelyCounters(arrivals[..n], since) + (if InTime(arrivals[n], since) then [arrivals[n].counter] else [])
  }

  lemma {:induction false} TimelyInOrder(arrivals: seq<Arrival>, since: nat, bound: nat)
    requires InOrder(arrivals) && forall j | 0 <= j < |arrivals| :: arrivals[j].counter < bound
    ensures Increasing(TimelyCounters(arrivals, since))
    ensures forall x | x in TimelyCounters(arrivals, since) :: x < bound
  {
    hide InTime;
    if arrivals != [] {
      var n := |arrivals| - 1;
      TimelyInOrder(arrivals[..n], since, arrivals[n].counter);
      IncreasingAppend(TimelyCounters(arrivals[..n], since), arrivals[n].counter);
    }
  }

  lemma IncreasingAppend(cs: seq<nat>, x: nat)
    requires Increasing(cs) && forall y | y in cs :: y < x
    ensures Increasing(cs + [x])
  {
    forall i, j | 0 <= i < j < |cs| + 1
      ensures (cs + [x])[i] < (cs + [x])[j]
    {
      assert cs[i] in cs;
    }
  }

  /** A session that looks the same to the lookup is found in the same place. */
  lemma SelectSame(t: Tunnel, i: nat, p: Peer, receiver: nat)
    requires Select(t, receiver) == Current(i) && i < |t.peers|
    requires p.configured == t.peers[i].configured && p.prevSession == t.peers[i].prevSession
    requires p.session.valid == t.peers[i].session.valid && p.session.localIndex == t.peers[i].session.localIndex
    ensures Select(t.(peers := t.peers[i := p]), receiver) == Current(i)
  {
    var u := t.(peers := t.peers[i := p]);
    var f, g := FindByIndex(t, receiver), FindByIndex(u, receiver);
    assert f == Some(i) && HasIndex(t.peers[i], receiver) && HasIndex(u.peers[i], receiver);
    assert forall j | 0 <= j < i :: u.peers[j] == t.peers[j] && !HasIndex(t.peers[j], receiver);
    assert g == Some(i);
  }

  /** What one arrival does to the session it belongs to */
  lemma OneArrival(w: World, i: nat, receiver: nat, a: Arrival)
    requires Inv(w) && RingsShaped(w.tun) && Select(w.tun, receiver) == Current(i) && i < |w.tun.peers|
    requires a.length > 0 && ReplayRuns.Answer(w.tun.peers[i].session.presented + [a.counter],
      |w.tun.peers[i].session.presented|)
    ensures var s := w.tun.peers[i].session;
      var v := Next(w, Arriving(a, receiver, s.receivingKey));
      && |v.tun.peers| == |w.tun.peers| && Select(v.tun, receiver) == Current(i)
      && (Delivers(w.tun, receiver, a.counter, Sealed(s.receivingKey, a.counter, a.plain, Empty), a.length, a.now)
          <==> InTime(a, s.lastHandshake))
      && v.tun.peers[i].session.presented == s.presented + (if InTime(a, s.lastHandshake) then [a.counter] else [])
      && v.tun.peers[i].session.receivingKey == s.receivingKey
      && v.tun.peers[i].session.lastHandshake == s.lastHandshake
  {
    hide Replay.Step, ReplayRuns.Run, Elapsed;
    assert PeerInv(w.tun.peers[i], w.installs);
    var p := w.tun.peers[i];
    var s := p.session;
    var cipher := Sealed(s.receivingKey, a.counter, a.plain, Empty);
    var calls := s.presented + [a.counter];
    assert calls[..|s.presented|] == s.presented;
    hide Select, Inv, RingsShaped;
    var q := OnCurrent(p, a.counter, cipher, a.length, a.now);
    assert Next(w, Arriving(a, receiver, s.receivingKey)).tun == w.tun.(peers := w.tun.peers[i := q]);
    SelectSame(w.tun, i, q, receiver);
  }

  /** The world after payloads have arrived for a table peer's session */
  ghost function After(w: World, i: nat, receiver: nat, arrivals: seq<Arrival>): (v: World)
    requires Inv(w) && i < |w.tun.peers|
    ensures Inv(v)
  {
    Run(w, ArrivingAll(arrivals, receiver, w.tun.peers[i].session.receivingKey))
  }

  /** The peer's session is still the one found, with the same key and birth; its window has seen these counters. */
  predicate Has(w: World, v: World, i: nat, receiver: nat, seen: seq<nat>)
    requires i < |w.tun.peers|
  {
    && |v.tun.peers| == |w.tun.peers| && Select(v.tun, receiver) == Current(i)
    && v.tun.peers[i].session.receivingKey == w.tun.peers[i].session.receivingKey
    && v.tun.peers[i].session.lastHandshake == w.tun.peers[i].session.lastHandshake
    && v.tun.peers[i].session.presented == seen
  }

  lemma AfterNext(w: World, i: nat, receiver: nat, arrivals: seq<Arrival>, n: nat)
    requires Inv(w) && i < |w.tun.peers| && n < |arrivals|
    ensures RingsShaped(After(w, i, receiver, arrivals[..n]).tun)
    ensures After(w, i, receiver, arrivals[..n + 1])
         == Next(After(w, i, receiver, arrivals[..n]),
           Arriving(arrivals[n], receiver, w.tun.peers[i].session.receivingKey))
  {
    hide Inv, RingsShaped, Next;
    assert arrivals[..n + 1][..n] == arrivals[..n];
    var steps := ArrivingAll(arrivals[..n + 1], receiver, w.tun.peers[i].session.receivingKey);
    assert steps[..n] == ArrivingAll(arrivals[..n], receiver, w.tun.peers[i].session.receivingKey);
    InvShaped(After(w, i, receiver, arrivals[..n]));
  }

  lemma Accepts(arrivals: seq<Arrival>, n: nat, since: nat)
    requires InOrder(arrivals) && n < |arrivals|
    ensures var seen := TimelyCounters(arrivals[..n], since); ReplayRuns.Answer(seen + [arrivals[n].counter], |seen|)
  {
    hide ReplayRuns.Answer;
    var seen := TimelyCounters(arrivals[..n], since);
    TimelyInOrder(arrivals[..n], since, arrivals[n].counter);
    IncreasingAppend(seen, arrivals[n].counter);
    InOrderAccepted(seen + [arrivals[n].counter], |seen|);
  }

  /** The window has seen exactly the payloads that arrived within the session's lifetime. */
  lemma {:induction false} Arrived(w: World, i: nat, receiver: nat, arrivals: seq<Arrival>, n: nat)
    requires Inv(w) && Select(w.tun, receiver) == Current(i) && i < |w.tun.peers|
    requires InOrder(arrivals) && n <= |arrivals|
    requires w.tun.peers[i].session.presented == []
    ensures Has(w, After(w, i, receiver, arrivals[..n]), i, receiver,
                TimelyCounters(arrivals[..n], w.tun.peers[i].session.lastHandshake))
  {
    hide Inv, RingsShaped, Next, Select, InTime, Delivers, InOrder;
    if n == 0 {
      assert arrivals[..0] == [];
    } else {
      hide After;
      var u, since := After(w, i, receiver, arrivals[..n - 1]), w.tun.peers[i].session.lastHandshake;
      Arrived(w, i, receiver, arrivals, n - 1);
      AfterNext(w, i, receiver, arrivals, n - 1);
      Accepts(arrivals, n - 1, since);
      HasContent(arrivals, n - 1);
      OneArrival(u, i, receiver, arrivals[n - 1]);
      assert arrivals[..n][..n - 1] == arrivals[..n - 1];
    }
  }

  lemma HasContent(arrivals: seq<Arrival>, n: nat)
    requires InOrder(arrivals) && n < |arrivals|
    ensures arrivals[n].length > 0
  {}

  /**
   Payloads of the other end that arrive in the order of their counters at a
   session that has received none yet: each is delivered exactly if it arrives
   within the session's lifetime.
   */
  lemma AllDelivered(w: World, i: nat, receiver: nat, arrivals: seq<Arrival>, n: nat)
    requires Inv(w) && Select(w.tun, receiver) == Current(i) && i < |w.tun.peers| && InOrder(arrivals) && n < |arrivals|
    requires w.tun.peers[i].session.presented == []
    ensures var s, a := w.tun.peers[i].session, arrivals[n];
      var u := After(w, i, receiver, arrivals[..n]);
      && RingsShaped(u.tun)
      && (Delivers(u.tun, receiver, a.counter, Sealed(s.receivingKey, a.counter, a.plain, Empty), a.length, a.now)
          <==> InTime(a, s.lastHandshake))
  {
    hide Inv, RingsShaped, Next, Select, InTime, Delivers, InOrder, After;
    Arrived(w, i, receiver, arrivals, n);
    AfterNext(w, i, receiver, arrivals, n);
    Accepts(arrivals, n, w.tun.peers[i].session.lastHandshake);
    HasContent(arrivals, n);
    OneArrival(After(w, i, receiver, arrivals[..n]), i, receiver, arrivals[n]);
  }

  /**
   After the handshake: of the payloads that a seals under its key, b delivers
   every in-order selection that arrives within the session's lifetime, whatever
   was lost on the way, and nothing that arrives later.
   */
  lemma SentIsDelivered(a: World, b: World, i: nat, ei: nat, er: nat, ix: nat, rx: nat, stamp: nat, now: nat,
                        arrivals: seq<Arrival>, n: nat)
    requires Inv(b) && MayAttempt(a, false) && a.tun.peerPublic == Pub(b.tun.secret) && a.tun.psk == b.tun.psk
    requires FindByKey(b.tun, Pub(a.tun.secret)) == Some(i) && i < |b.tun.peers|
    requires InOrder(arrivals) && n < |arrivals|
    requires Select(Answering(a, b, ei, er, ix, rx, stamp, now).tun, rx) == Current(i)
    ensures var b' := Answering(a, b, ei, er, ix, rx, stamp, now);
      var key := Connected(a, b, ei, er, ix, rx, stamp, now).tun.session.sendingKey;
      && Inv(b') && i < |b'.tun.peers| && b'.tun.peers[i].session.receivingKey == key
      && var u := After(b', i, rx, arrivals[..n]);
         && RingsShaped(u.tun)
         && (Delivers(u.tun, rx, arrivals[n].counter, Sealed(key, arrivals[n].counter, arrivals[n].plain, Empty),
                      arrivals[n].length, arrivals[n].now)
             <==> InTime(arrivals[n], now))
  {
    HandshakeMatches(a, b, i, ei, er, ix, rx, stamp, now);
    InitAccepted(a.tun.secret, b.tun.secret, ei, ix, stamp, b.tun.psk, er, rx);
    var m := InitMessage(a.tun.secret, a.tun.peerPublic, ei, ix, stamp);
    ReceiveInitInv(b, m, er, rx, now);
    Installs(b, m, i, er, rx, now);
    hide Respond, InitMessage, AfterReceiveInit, AfterConnectResponse, AfterConnectInit, AfterReturn, Inv, RingsShaped,
      Select, Delivers, InTime, After, InOrder;
    AllDelivered(Answering(a, b, ei, er, ix, rx, stamp, now), i, rx, arrivals, n);
  }

  /** b once it has answered a's first message */
  function Answering(a: World, b: World, ei: nat, er: nat, ix: nat, rx: nat, stamp: nat, now: nat): World {
    AfterReceiveInit(b, InitMessage(a.tun.secret, a.tun.peerPublic, ei, ix, stamp), er, rx, now)
  }

  /** a once an attempt of wg_connect has had b's answer, if there was one, and the call has returned, if it does */
  function Connected(a: World, b: World, ei: nat, er: nat, ix: nat, rx: nat, stamp: nat, now: nat): World {
    var w := AfterConnectInit(a, ei, ix, stamp, false);
    match Respond(b.tun.secret, b.tun.psk, InitMessage(a.tun.secret, a.tun.peerPublic, ei, ix, stamp), er, rx)
    case None => w
    case Some(answer) => AfterReturn(AfterConnectResponse(w, answer.response, now), now)
  }
}
