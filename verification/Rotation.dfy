/**
 What becomes of the old session when new keys are installed.

 When the tunnel answers a handshake, payloads for the old index are delivered as before.
 When it has started the handshake itself, they are not: the new legacy session keeps the
 old index as its own, so the session that was moved aside is not selected.
 */
module Rotation {
  import opened Options
  import opened Noise
  import opened Tunnel
  import opened TunnelInvariants
  import opened Nonces
  import opened NonceRuns
  import opened Deliveries
  import Replay

  /** The step answers a first message, in the receive thread or in wg_connect. */
  predicate Answers(w: World, step: Step) {
    || (step.ReceiveInit? && Respond(w.tun.secret, w.tun.psk, step.init, step.ephemeral, step.index).Some?)
    || (step.ConnectPassive? && Awaiting(w, false)
        && Respond(w.tun.secret, w.tun.psk, step.init, step.ephemeral, step.index).Some?)
  }

  /** Whom it answers */
  function Answered(w: World, step: Step): Option<nat>
    requires Answers(w, step)
  {
    FindByKey(w.tun, Respond(w.tun.secret, w.tun.psk, step.init, step.ephemeral, step.index).value.peerStatic)
  }

  /** What selection and delivery read of a peer is the same. */
  predicate HeardAlike(p: Peer, q: Peer) {
    && p.configured == q.configured && p.prevSession == q.prevSession && p.session.valid == q.session.valid
    && p.session.localIndex == q.session.localIndex
  }

  ghost predicate AlikeBut(t: Tunnel, u: Tunnel, i: nat) {
    |t.peers| == |u.peers| && forall j | 0 <= j < |t.peers| && j != i :: HeardAlike(t.peers[j], u.peers[j])
  }

  /** The keepalive that follows changes none of that. */
  lemma KeepaliveAlike(v: World, i: nat, now: nat)
    requires i < |v.tun.peers|
    ensures var u := PeerSent(v, i, true, now);
      && u.tun.session == v.tun.session && u.tun.prevSession == v.tun.prevSession
      && |u.tun.peers| == |v.tun.peers| && forall j | 0 <= j < |v.tun.peers| ::
        HeardAlike(v.tun.peers[j], u.tun.peers[j])
  {}

  /** The step is wg_handshake_init_process, up to a keepalive and the end of the attempt. */
  lemma Processed(w: World, step: Step)
    requires RingsShaped(w.tun) && Answers(w, step)
    ensures var v := AfterInitProcess(w, step.init, step.ephemeral, step.index, step.now).0; var u := Next(w, step);
      && u.tun.session == v.tun.session && u.tun.prevSession == v.tun.prevSession
      && |u.tun.peers| == |v.tun.peers| && forall j | 0 <= j < |v.tun.peers| ::
        HeardAlike(v.tun.peers[j], u.tun.peers[j])
  {
    hide RingsShaped, Respond, AfterInitProcess, PeerSent;
    var v := AfterInitProcess(w, step.init, step.ephemeral, step.index, step.now).0;
    var i := Find(v.tun.peers, (p: Peer) => p.connected && p.session.valid);
    if step.ReceiveInit? && i.Some? { KeepaliveAlike(v, i.value, step.now); }
  }

  // A table peer.

  /** A valid session becomes the previous one; an invalid one leaves the previous one where it is. */
  lemma TableRotates(w: World, step: Step, i: nat)
    requires RingsShaped(w.tun) && Answers(w, step) && Answered(w, step) == Some(i)
    ensures i < |w.tun.peers| && AlikeBut(w.tun, Next(w, step).tun, i)
    ensures var p, q := w.tun.peers[i], Next(w, step).tun.peers[i];
      && p.configured && q.configured && q.session.valid && q.session.localIndex == step.index
      && q.prevSession == (if p.session.valid then p.session else p.prevSession)
    ensures Next(w, step).tun.session == w.tun.session && Next(w, step).tun.prevSession == w.tun.prevSession
  {
    Processed(w, step);
    hide RingsShaped, Respond, Next;
  }

  /** No earlier table peer has the index. */
  predicate First(t: Tunnel, i: nat, index: nat)
    requires i < |t.peers|
  {
    forall j | 0 <= j < i :: !HasIndex(t.peers[j], index)
  }

  lemma FirstFound(t: Tunnel, i: nat, index: nat)
    requires i < |t.peers| && HasIndex(t.peers[i], index)
    ensures FindByIndex(t, index) == Some(i) <==> First(t, i, index)
  {}

  /** Peer i has moved its session aside and got a new one. */
  ghost predicate Moved(t: Tunnel, u: Tunnel, i: nat, index: nat) {
    && i < |t.peers| && AlikeBut(t, u, i) && t.peers[i].configured && u.peers[i].configured
    && t.peers[i].session.valid && u.peers[i].prevSession == t.peers[i].session
    && u.peers[i].session.valid && u.peers[i].session.localIndex == index
  }

  lemma MovedSelects(t: Tunnel, u: Tunnel, i: nat, index: nat)
    requires Moved(t, u, i, index)
    ensures var was := t.peers[i].session.localIndex;
      && (Select(u, was) == Previous(i) <==> index != was && First(t, i, was))
      && (First(t, i, was) ==> Select(t, was) == Current(i))
  {
    var was := t.peers[i].session.localIndex;
    FirstFound(u, i, was);
    FirstFound(t, i, was);
    forall j | 0 <= j < i
      ensures HasIndex(u.peers[j], was) == HasIndex(t.peers[j], was)
    {}
    assert First(u, i, was) == First(t, i, was);
  }

  lemma MovedHeard(t: Tunnel, u: Tunnel, i: nat, index: nat, counter: nat, cipher: Term, length: nat, now: nat)
    requires Moved(t, u, i, index) && RingsShaped(t) && RingsShaped(u)
    requires index != t.peers[i].session.localIndex && First(t, i, t.peers[i].session.localIndex)
    ensures Delivers(u, t.peers[i].session.localIndex, counter, cipher, length, now)
      <==> Delivers(t, t.peers[i].session.localIndex, counter, cipher, length, now)
  {
    MovedSelects(t, u, i, index);
    hide Select, First, Opened, Expired, AlikeBut;
  }

  /**
   For every first message that is answered and names a peer with a valid session: the old session
   becomes the previous one, and is the one that the old index selects afterwards exactly if the new
   index differs and no earlier peer has the old one.
   */
  lemma OldIndexSelects(w: World, step: Step, i: nat)
    requires RingsShaped(w.tun) && Answers(w, step) && Answered(w, step) == Some(i)
    requires i < |w.tun.peers| && w.tun.peers[i].session.valid
    ensures Moved(w.tun, Next(w, step).tun, i, step.index)
    ensures var was := w.tun.peers[i].session.localIndex;
      Select(Next(w, step).tun, was) == Previous(i) <==> step.index != was && First(w.tun, i, was)
  {
    TableRotates(w, step, i);
    hide RingsShaped, Respond, Next, Select, First, Answers;
    MovedSelects(w.tun, Next(w, step).tun, i, step.index);
  }

  /** Then every payload for the old index is delivered afterwards exactly if it would have been before. */
  lemma OldIndexHeard(w: World, step: Step, i: nat, counter: nat, cipher: Term, length: nat, now: nat)
    requires RingsShaped(w.tun) && RingsShaped(Next(w, step).tun) && Answers(w, step)
    requires Answered(w, step) == Some(i) && i < |w.tun.peers| && w.tun.peers[i].session.valid
    requires step.index != w.tun.peers[i].session.localIndex && First(w.tun, i, w.tun.peers[i].session.localIndex)
    ensures var was := w.tun.peers[i].session.localIndex;
      Delivers(Next(w, step).tun, was, counter, cipher, length, now)
      <==> Delivers(w.tun, was, counter, cipher, length, now)
  {
    hide RingsShaped, Respond, Next, Select, First, Moved, Answered, Delivers;
    OldIndexSelects(w, step, i);
    MovedHeard(w.tun, Next(w, step).tun, i, step.index, counter, cipher, length, now);
  }

  // The legacy session.

  lemma LegacyRotates(w: World, step: Step)
    requires RingsShaped(w.tun) && Answers(w, step) && Answered(w, step).None?
    ensures var t, u := w.tun, Next(w, step).tun;
      && u.session.valid && u.session.localIndex == step.index && u.session.oldLocalIndex == t.session.oldLocalIndex
      && u.prevSession == (if t.session.valid then t.session else t.prevSession)
      && AlikeBut(t, u, |t.peers|)
  {
    Processed(w, step);
    hide RingsShaped, Respond, Next;
  }

  lemma SameFound(t: Tunnel, u: Tunnel, index: nat)
    requires AlikeBut(t, u, |t.peers|)
    ensures FindByIndex(t, index).None? == FindByIndex(u, index).None?
  {
    if FindByIndex(u, index).Some? {
      var j := FindByIndex(u, index).value;
      assert HasIndex(t.peers[j], index);
    }
    if FindByIndex(t, index).Some? {
      var j := FindByIndex(t, index).value;
      assert HasIndex(u.peers[j], index);
    }
  }

  /** The legacy session has been moved aside and replaced. */
  ghost predicate LegacyMoved(t: Tunnel, u: Tunnel, index: nat) {
    && AlikeBut(t, u, |t.peers|) && t.session.valid && u.prevSession == t.session
    && u.session.localIndex == index && u.session.oldLocalIndex == t.session.oldLocalIndex
  }

  /** Nothing else has the index of the legacy session. */
  predicate Alone(t: Tunnel) {
    t.session.oldLocalIndex != t.session.localIndex && FindByIndex(t, t.session.localIndex).None?
  }

  lemma LegacyMovedSelects(t: Tunnel, u: Tunnel, index: nat)
    requires LegacyMoved(t, u, index)
    ensures var was := t.session.localIndex;
      && (Select(u, was) == LegacyPrevious <==> index != was && Alone(t))
      && (Alone(t) ==> Select(t, was) == Legacy)
  {
    SameFound(t, u, t.session.localIndex);
    hide AlikeBut, FindByIndex;
  }

  lemma LegacyMovedHeard(t: Tunnel, u: Tunnel, index: nat, counter: nat, cipher: Term, length: nat, now: nat)
    requires LegacyMoved(t, u, index) && RingsShaped(t) && RingsShaped(u)
    requires index != t.session.localIndex && Alone(t)
    ensures Delivers(u, t.session.localIndex, counter, cipher, length, now)
      <==> Delivers(t, t.session.localIndex, counter, cipher, length, now)
  {
    LegacyMovedSelects(t, u, index);
    hide Select, Alone, Opened, Expired, AlikeBut;
  }

  /** The same for a sender whose key no table peer has, and the legacy session */
  lemma OldLegacySelects(w: World, step: Step)
    requires RingsShaped(w.tun) && Answers(w, step) && Answered(w, step).None? && w.tun.session.valid
    ensures LegacyMoved(w.tun, Next(w, step).tun, step.index)
    ensures var was := w.tun.session.localIndex;
      Select(Next(w, step).tun, was) == LegacyPrevious <==> step.index != was && Alone(w.tun)
  {
    LegacyRotates(w, step);
    hide RingsShaped, Respond, Next, Answers, AlikeBut, Select, Alone;
    LegacyMovedSelects(w.tun, Next(w, step).tun, step.index);
  }

  lemma OldLegacyHeard(w: World, step: Step, counter: nat, cipher: Term, length: nat, now: nat)
    requires RingsShaped(w.tun) && RingsShaped(Next(w, step).tun) && Answers(w, step)
    requires Answered(w, step).None? && w.tun.session.valid
    requires step.index != w.tun.session.localIndex && Alone(w.tun)
    ensures Delivers(Next(w, step).tun, w.tun.session.localIndex, counter, cipher, length, now)
      <==> Delivers(w.tun, w.tun.session.localIndex, counter, cipher, length, now)
  {
    hide RingsShaped, Respond, Next, Answered, Delivers, LegacyMoved, Alone, Select;
    OldLegacySelects(w, step);
    LegacyMovedHeard(w.tun, Next(w, step).tun, step.index, counter, cipher, length, now);
  }

  // The initiator.

  /** The step completes a handshake of wg_connect or wg_rekey. */
  ghost predicate Completes(w: World, step: Step)
    requires RingsShaped(w.tun)
  {
    (step.ConnectResponse? || step.RekeyResponse?) && Next(w, step).installs != w.installs
  }

  /** The old session is moved aside under an index that the new session still has as its old one. */
  lemma InitiatorRotates(w: World, step: Step)
    requires RingsShaped(w.tun) && Completes(w, step) && w.tun.session.valid
    ensures var t, u := w.tun, Next(w, step).tun;
      && u.peers == t.peers && u.session.valid && u.session.localIndex == t.session.localIndex
      && u.session.oldLocalIndex == t.session.oldLocalIndex == u.prevSession.localIndex
      && u.prevSession == t.session.(localIndex := t.session.oldLocalIndex, remoteIndex := u.session.remoteIndex)
      && u.session.receivingKey.Kdf?
  {
    hide RingsShaped, Finish;
  }

  /** So no index selects it then. */
  lemma PreviousUnheard(w: World, step: Step, index: nat)
    requires RingsShaped(w.tun) && Completes(w, step) && w.tun.session.valid
    ensures Select(Next(w, step).tun, index) != LegacyPrevious
    ensures Select(w.tun, index) == Legacy ==> Select(Next(w, step).tun, index) == Legacy
  {
    InitiatorRotates(w, step);
    hide RingsShaped, Next, Completes;
  }

  /**
   In every run with fresh ephemerals, when the tunnel completes its own handshake over a valid
   session, no payload that the old keys would have delivered the moment before is delivered the
   moment after, whatever index it carries.
   */
  lemma LateLost(c: Config, steps: seq<Step>, n: nat, index: nat, counter: nat, cipher: Term, length: nat, now: nat)
    requires FreshRun(c, steps) && n < |steps| && RingsShaped(At(c, steps, n).tun) && At(c, steps, n).tun.session.valid
    requires RingsShaped(At(c, steps, n + 1).tun) && Completes(At(c, steps, n), steps[n])
    requires Select(At(c, steps, n).tun, index) == Legacy
    requires Delivers(At(c, steps, n).tun, index, counter, cipher, length, now)
    ensures !Delivers(At(c, steps, n + 1).tun, index, counter, cipher, length, now)
  {
    var w, v := At(c, steps, n), At(c, steps, n + 1);
    AtNext(c, steps, n);
    RunHears(c, steps, n + 1);
    hide At, FreshRun, Inv, RingsShaped, Next, Completes, Select, SeesOwn, Untaken, Heard;
    InitiatorRotates(w, steps[n]);
    PreviousUnheard(w, steps[n], index);
    KeysApart(v);
    OneKey(w.tun.session, v.tun.session, counter, cipher, length, now);
  }

  lemma KeysApart(v: World)
    requires Apart(v) && v.tun.session.receivingKey != Zero
    ensures v.tun.session.receivingKey != v.tun.prevSession.receivingKey
  {
    assert IsPlace(v.tun, Legacy) && IsPlace(v.tun, LegacyPrevious);
    assert SessionOf(v.tun, Legacy) == v.tun.session && SessionOf(v.tun, LegacyPrevious) == v.tun.prevSession;
  }

  /** A payload opens under one key. */
  lemma OneKey(s: Session, t: Session, counter: nat, cipher: Term, length: nat, now: nat)
    requires |s.replay.ring| == Replay.WORDS && |t.replay.ring| == Replay.WORDS && length > 0
    requires s.receivingKey != t.receivingKey && Opened(s, counter, cipher, length, now).1
    ensures !Opened(t, counter, cipher, length, now).1
  {}
}
