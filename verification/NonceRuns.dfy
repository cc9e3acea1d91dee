/**
 Whole runs with fresh ephemerals: when two transport packets carry the same key
 and the same counter.
 */
module NonceRuns {
  import opened MachineInts
  import opened Options
  import opened Noise
  import opened Tunnel
  import opened TunnelInvariants
  import opened Nonces

  /** The state when step n is made */
  ghost function At(c: Config, steps: seq<Step>, n: nat): (w: World)
    requires n <= |steps|
    ensures Inv(w)
  {
    Run(Origin(c), steps[..n])
  }

  /** Every step of the run uses an ephemeral of its own. */
  ghost predicate FreshRun(c: Config, steps: seq<Step>) {
    forall n | 0 <= n < |steps| :: Fresh(At(c, steps, n), steps[n])
  }

  lemma AtNext(c: Config, steps: seq<Step>, n: nat)
    requires n < |steps|
    ensures RingsShaped(At(c, steps, n).tun) && At(c, steps, n + 1) == Next(At(c, steps, n), steps[n])
  {
    hide Inv, Next, RingsShaped;
    assert steps[..n + 1][..n] == steps[..n];
    InvShaped(At(c, steps, n));
  }

  lemma Grow(c: Config, steps: seq<Step>, more: seq<Step>, n: nat)
    requires n <= |steps|
    ensures At(c, steps + more, n) == At(c, steps, n)
  {
    assert (steps + more)[..n] == steps[..n];
  }

  lemma GrowFresh(c: Config, steps: seq<Step>, step: Step)
    requires FreshRun(c, steps) && Fresh(At(c, steps, |steps|), step)
    ensures FreshRun(c, steps + [step]) && RingsShaped(At(c, steps, |steps|).tun)
    ensures At(c, steps + [step], |steps| + 1) == Next(At(c, steps, |steps|), step)
  {
    hide At, Inv, RingsShaped, Next, Fresh;
    var t := steps + [step];
    Grow(c, steps, [step], |steps|);
    AtNext(c, t, |steps|);
    forall n | 0 <= n < |t|
      ensures Fresh(At(c, t, n), t[n])
    {
      Grow(c, steps, [step], n);
    }
  }

  lemma {:induction false} AtKeeps(c: Config, steps: seq<Step>, n: nat)
    requires FreshRun(c, steps) && n <= |steps|
    ensures NonceInv(At(c, steps, n))
  {
    hide NonceInv, Inv, Next, Fresh;
    if n == 0 {
      OriginKeeps(c);
    } else {
      AtKeeps(c, steps, n - 1);
      AtNext(c, steps, n - 1);
      NextKeeps(At(c, steps, n - 1), steps[n - 1]);
    }
  }

  lemma OriginKeeps(c: Config)
    ensures NonceInv(Origin(c))
  {}

  // Which steps send, and which wipe.

  /** wg_connect or wg_rekey returns WG_OK and sends its keepalive on a legacy session without keys. */
  predicate SendsOnWiped(w: World, step: Step) {
    step.Return? && MayReturn(w) && w.call.err == Ok && !w.tun.session.valid
  }

  /** The keepalive thread wipes a legacy session that has keys. */
  predicate WipesLegacy(w: World, step: Step) {
    step.TickLegacy? && Stale(w.tun.session, step.now)
  }

  /** The step sends nothing, or one packet. */
  predicate AtMostOne(w: World, v: World) {
    || v.sent == w.sent
    || (|v.sent| == |w.sent| + 1 && v.sent[..|w.sent|] == w.sent && v.sent[|w.sent|].epoch == w.wipes)
  }

  predicate ZeroSent(w: World, v: World) { |w.sent| < |v.sent| && v.sent[|w.sent|].key == Zero }

  lemma SenderKey(w: World, i: nat)
    requires NonceInv(w) && i <= |w.tun.peers|
    ensures Sender(w.tun, i).sendingKey == Zero <==> !Sender(w.tun, i).valid
  {
    assert SenderInv(Sender(w.tun, i), w);
    ZeroOwner();
  }

  lemma PeerSends(w: World, i: nat, accepted: bool, now: nat)
    requires NonceInv(w) && i < |w.tun.peers| && w.tun.peers[i].session.valid
    ensures var v := PeerSent(w, i, accepted, now); AtMostOne(w, v) && !ZeroSent(w, v) && v.wipes == w.wipes
  {
    hide NonceInv;
    SenderKey(w, i + 1);
  }

  lemma LegacySends(w: World, accepted: bool, now: nat)
    requires NonceInv(w)
    ensures var v := LegacySent(w, accepted, now);
      AtMostOne(w, v) && v.wipes == w.wipes && (ZeroSent(w, v) <==> !w.tun.session.valid)
  {
    hide NonceInv;
    SenderKey(w, 0);
  }

  lemma OutputSends(w: World, ip: nat, length: nat, ephemeral: nat, index: nat, stamp: nat, accepted: bool, now: nat)
    requires NonceInv(w)
    ensures var v := AfterOutput(w, ip, length, ephemeral, index, stamp, accepted, now);
      AtMostOne(w, v) && !ZeroSent(w, v) && v.wipes == w.wipes
  {
    hide NonceInv, InitState, PeerSent;
    var i := FindByIp(w.tun, ip);
    if i.Some? && w.tun.peers[i.value].session.valid { PeerSends(w, i.value, accepted, now); }
  }

  lemma ReceiveInitSends(w: World, m: Init, ephemeral: nat, index: nat, now: nat)
    requires NonceInv(w) && ephemeral !in w.used
    ensures var v := AfterReceiveInit(w, m, ephemeral, index, now);
      AtMostOne(w, v) && !ZeroSent(w, v) && v.wipes == w.wipes
  {
    hide NonceInv, PeerSent, AfterInitProcess, Respond, FindByKey;
    InitProcessKeeps(w, m, ephemeral, index, now);
    InitProcessQuiet(w, m, ephemeral, index, now);
    var (v, ok) := AfterInitProcess(w, m, ephemeral, index, now);
    var i := Find(v.tun.peers, (p: Peer) => p.connected && p.session.valid);
    if i.Some? { PeerSends(v, i.value, true, now); }
  }

  lemma InitProcessQuiet(w: World, m: Init, ephemeral: nat, index: nat, now: nat)
    ensures var (v, ok) := AfterInitProcess(w, m, ephemeral, index, now);
      v.sent == w.sent && v.wipes == w.wipes
    ensures var (v, ok) := AfterInitProcess(w, m, ephemeral, index, now);
      var a := Respond(w.tun.secret, w.tun.psk, m, ephemeral, index);
      && ok == a.Some?
      && v.tun.session.valid == (w.tun.session.valid || (ok && FindByKey(w.tun, a.value.peerStatic).None?))
  {
    hide Respond, FindByKey;
  }

  lemma TickPeerSends(w: World, i: nat, now: nat)
    requires NonceInv(w) && i < |w.tun.peers|
    ensures var v := AfterTickPeer(w, i, now); AtMostOne(w, v) && !ZeroSent(w, v) && v.wipes == w.wipes
  {
    hide NonceInv, PeerSent;
    if w.tun.peers[i].session.valid { PeerSends(w, i, true, now); }
  }

  lemma ReturnSends(w: World, now: nat)
    requires NonceInv(w)
    ensures var v := AfterReturn(w, now);
      AtMostOne(w, v) && v.wipes == w.wipes && (ZeroSent(w, v) <==> SendsOnWiped(w, Return(now)))
  {
    hide NonceInv, LegacySent;
    Quiet(w, w.(call := Idle));
    LegacySends(w.(call := Idle), true, now);
  }

  lemma AttemptSilent(w: World, step: Step)
    requires RingsShaped(w.tun)
    requires step.ConnectInit? || step.ConnectResponse? || step.ConnectPassive? || step.RekeyResponse?
      || step.AttemptFailed?
    ensures Next(w, step).sent == w.sent && Next(w, step).wipes == w.wipes
  {
    hide RingsShaped, Finish, InitState, AfterInitProcess;
    if step.ConnectPassive? {
      InitProcessQuiet(w, step.init, step.ephemeral, step.index, step.now);
    }
  }

  lemma SendSends(w: World, length: nat, accepted: bool, now: nat)
    requires NonceInv(w)
    ensures var v := AfterSend(w, length, accepted, now); AtMostOne(w, v) && !ZeroSent(w, v) && v.wipes == w.wipes
  {
    hide NonceInv, LegacySent;
    LegacySends(w, accepted, now);
  }

  lemma OthersSilent(w: World, step: Step)
    requires Inv(w) && RingsShaped(w.tun)
    requires step.AddPeer? || step.ReceiveResponse? || step.ReceiveTransport? || step.TickLegacy?
    ensures var v := Next(w, step);
      v.sent == w.sent && v.wipes == w.wipes + (if WipesLegacy(w, step) then 1 else 0)
  {
    if step.ReceiveResponse? { ResponsesIgnored(w, step.response, step.now); }
    hide Inv, RingsShaped, AfterTransport, AfterReceiveResponse;
  }

  lemma OnlyThese(w: World, step: Step)
    ensures SendsOnWiped(w, step) ==> step.Return?
    ensures WipesLegacy(w, step) ==> step.TickLegacy?
  {}

  /**
   A step sends at most one packet.  It sends one under the all-zero key exactly
   in the case SendsOnWiped, and counts a wipe exactly in the case WipesLegacy.
   */
  lemma StepSends(w: World, step: Step)
    requires Inv(w) && RingsShaped(w.tun) && NonceInv(w) && Fresh(w, step)
    ensures AtMostOne(w, Next(w, step))
    ensures ZeroSent(w, Next(w, step)) <==> SendsOnWiped(w, step)
    ensures Next(w, step).wipes == w.wipes + (if WipesLegacy(w, step) then 1 else 0)
  {
    OnlyThese(w, step);
    hide NonceInv, Inv, RingsShaped, SendsOnWiped, WipesLegacy, AtMostOne, ZeroSent, AfterOutput, AfterReceiveInit,
      AfterReceiveResponse, AfterTransport, AfterTickPeer, AfterTickLegacy, AfterConnectInit, AfterConnectResponse,
      AfterConnectPassive, AfterAttemptFailed, AfterRekeyResponse, AfterReturn, AfterSend, AddedPeer;
    match step
    case Output(ip, length, ephemeral, index, stamp, accepted, now) =>
      OutputSends(w, ip, length, ephemeral, index, stamp, accepted, now);
    case ReceiveInit(m, ephemeral, index, now) => ReceiveInitSends(w, m, ephemeral, index, now);
    case TickPeer(i, now) => if i < |w.tun.peers| { TickPeerSends(w, i, now); } else { Silent(w, w); }
    case Return(now) => ReturnSends(w, now);
    case Send(length, accepted, now) => SendSends(w, length, accepted, now);
    case AddPeer(_, _) => OthersSilent(w, step); Silent(w, Next(w, step));
    case ReceiveResponse(_, _) => OthersSilent(w, step); Silent(w, Next(w, step));
    case ReceiveTransport(_, _, _, _, _) => OthersSilent(w, step); Silent(w, Next(w, step));
    case TickLegacy(_) => OthersSilent(w, step); Silent(w, Next(w, step));
    case _ => AttemptSilent(w, step); Silent(w, Next(w, step));
  }

  lemma Silent(w: World, v: World)
    requires v.sent == w.sent
    ensures AtMostOne(w, v) && !ZeroSent(w, v)
  {}

  // Who sent a packet, and what happened in between.

  predicate Extends(a: seq<Packet>, b: seq<Packet>) {
    |a| <= |b| && forall k | 0 <= k < |a| :: a[k] == b[k]
  }

  lemma StepExtends(c: Config, steps: seq<Step>, n: nat)
    requires FreshRun(c, steps) && n < |steps|
    ensures var w, v := At(c, steps, n), At(c, steps, n + 1);
      && Extends(w.sent, v.sent) && AtMostOne(w, v)
      && (ZeroSent(w, v) <==> SendsOnWiped(w, steps[n]))
      && v.wipes == w.wipes + (if WipesLegacy(w, steps[n]) then 1 else 0)
  {
    hide At, Inv, NonceInv, Next, Fresh, RingsShaped, SendsOnWiped, WipesLegacy;
    AtNext(c, steps, n);
    AtKeeps(c, steps, n);
    var w, v := At(c, steps, n), At(c, steps, n + 1);
    StepSends(w, steps[n]);
    forall k | 0 <= k < |w.sent|
      ensures v.sent[k] == w.sent[k]
    {
      if v.sent != w.sent { assert v.sent[..|w.sent|][k] == v.sent[k]; }
    }
  }

  lemma {:induction false} Grows(c: Config, steps: seq<Step>, m: nat, n: nat)
    requires FreshRun(c, steps) && m <= n <= |steps|
    ensures Extends(At(c, steps, m).sent, At(c, steps, n).sent) && At(c, steps, m).wipes <= At(c, steps, n).wipes
  {
    hide At, Inv, FreshRun, AtMostOne, ZeroSent, SendsOnWiped, WipesLegacy;
    if m < n {
      Grows(c, steps, m, n - 1);
      StepExtends(c, steps, n - 1);
    }
  }

  /** The step that sent packet p */
  lemma {:induction false} SentBy(c: Config, steps: seq<Step>, n: nat, p: nat) returns (a: nat)
    requires FreshRun(c, steps) && n <= |steps| && p < |At(c, steps, n).sent|
    ensures a < n && |At(c, steps, a).sent| == p && |At(c, steps, a + 1).sent| == p + 1
    ensures At(c, steps, n).sent[p].epoch == At(c, steps, a).wipes
    ensures At(c, steps, n).sent[p].key == Zero <==> SendsOnWiped(At(c, steps, a), steps[a])
    decreases n
  {
    hide Inv, FreshRun, SendsOnWiped, WipesLegacy;
    assert steps[..0] == [];
    hide At;
    StepExtends(c, steps, n - 1);
    if p < |At(c, steps, n - 1).sent| {
      a := SentBy(c, steps, n - 1, p);
    } else {
      a := n - 1;
    }
  }

  lemma {:induction false} WipeBetween(c: Config, steps: seq<Step>, m: nat, n: nat) returns (b: nat)
    requires FreshRun(c, steps) && m <= n <= |steps| && At(c, steps, m).wipes < At(c, steps, n).wipes
    ensures m <= b < n && WipesLegacy(At(c, steps, b), steps[b])
    decreases n
  {
    hide At, Inv, FreshRun, SendsOnWiped, WipesLegacy, AtMostOne, ZeroSent, Extends;
    StepExtends(c, steps, n - 1);
    if WipesLegacy(At(c, steps, n - 1), steps[n - 1]) {
      b := n - 1;
    } else {
      b := WipeBetween(c, steps, m, n - 1);
    }
  }

  // The theorems.

  ghost function SentIn(c: Config, steps: seq<Step>): seq<Packet> { At(c, steps, |steps|).sent }

  /**
   Two packets of a run on one line carry the same counter exactly when the
   number of packets from one to the other on that line is a multiple of 2^64.
   */
  lemma CounterReuse(c: Config, steps: seq<Step>, p: nat, q: nat)
    requires FreshRun(c, steps) && p < q < |SentIn(c, steps)|
    ensures var sent := SentIn(c, steps);
      LineOf(sent[p]) == LineOf(sent[q]) ==>
        (sent[p].counter == sent[q].counter
         <==> (Count(sent[..q], LineOf(sent[q])) - Count(sent[..p], LineOf(sent[q]))) % TWO_64 == 0)
  {
    hide Inv, At, Count, Owner;
    AtKeeps(c, steps, |steps|);
    var w := At(c, steps, |steps|);
    assert PacketInv(w, p) && PacketInv(w, q);
    Congruent(Count(w.sent[..p], LineOf(w.sent[q])), Count(w.sent[..q], LineOf(w.sent[q])));
  }

  lemma Congruent(a: nat, b: nat)
    ensures a % TWO_64 == b % TWO_64 <==> (b - a) % TWO_64 == 0
  {}

  /** At most 2^64 packets under one installed key, or without a key between two wipes */
  ghost predicate Bounded(sent: seq<Packet>) {
    forall line :: Count(sent, line) <= TWO_64
  }

  /** How many packets came before this one on its line; without a key, since the last wipe */
  function Since(sent: seq<Packet>, n: nat): nat
    requires n < |sent|
  {
    Count(sent[..n], LineOf(sent[n]))
  }

  predicate Repeats(sent: seq<Packet>, p: nat, q: nat)
    requires p < |sent| && q < |sent|
  {
    sent[p].key == sent[q].key && sent[p].counter == sent[q].counter
  }

  lemma CounterIsSince(c: Config, steps: seq<Step>, n: nat)
    requires FreshRun(c, steps) && n < |SentIn(c, steps)| && Bounded(SentIn(c, steps))
    ensures SentIn(c, steps)[n].counter == Since(SentIn(c, steps), n)
  {
    hide Inv, At, Count, Owner;
    AtKeeps(c, steps, |steps|);
    var w := At(c, steps, |steps|);
    assert PacketInv(w, n);
    assert w.sent[..|w.sent|] == w.sent;
    CountMonotone(w.sent, n, |w.sent|, LineOf(w.sent[n]));
  }

  /**
   Exactly which packets of a run share key and counter: both are under the
   all-zero key, and equally many such packets were sent since the last wipe
   before each of them.
   */
  lemma SharedNonce(c: Config, steps: seq<Step>, p: nat, q: nat)
    requires FreshRun(c, steps) && p < q < |SentIn(c, steps)| && Bounded(SentIn(c, steps))
    ensures var sent := SentIn(c, steps);
      Repeats(sent, p, q) <==> sent[p].key == Zero && sent[q].key == Zero && Since(sent, p) == Since(sent, q)
  {
    hide Inv, SentIn, Count, FreshRun, Bounded;
    CounterIsSince(c, steps, p);
    CounterIsSince(c, steps, q);
    var sent := SentIn(c, steps);
    if LineOf(sent[p]) == LineOf(sent[q]) { CountMonotone(sent, p, q, LineOf(sent[p])); }
  }

  /** So no nonce is used twice under an installed key. */
  lemma NonceOnce(c: Config, steps: seq<Step>, p: nat, q: nat)
    requires FreshRun(c, steps) && p < q < |SentIn(c, steps)| && Bounded(SentIn(c, steps))
    ensures SentIn(c, steps)[q].key != Zero ==> !Repeats(SentIn(c, steps), p, q)
  {
    hide Inv, SentIn, FreshRun, Bounded, Since, Repeats;
    SharedNonce(c, steps, p, q);
  }

  /** A wipe of the legacy session between two keepalives on it without keys */
  ghost predicate Relapse(c: Config, steps: seq<Step>, a: nat, b: nat, d: nat) {
    && a < b < d < |steps|
    && SendsOnWiped(At(c, steps, a), steps[a])
    && WipesLegacy(At(c, steps, b), steps[b])
    && SendsOnWiped(At(c, steps, d), steps[d])
  }

  lemma {:induction false} CountSome(sent: seq<Packet>, line: Line) returns (k: nat)
    requires Count(sent, line) > 0
    ensures k < |sent| && LineOf(sent[k]) == line
  {
    var n := |sent| - 1;
    if LineOf(sent[n]) == line { k := n; } else { k := CountSome(sent[..n], line); }
  }

  /** The first packet on a line */
  lemma {:induction false} FirstOn(sent: seq<Packet>, n: nat) returns (m: nat)
    requires n < |sent|
    ensures m <= n && LineOf(sent[m]) == LineOf(sent[n]) && Since(sent, m) == 0
    decreases n
  {
    if Since(sent, n) == 0 {
      m := n;
    } else {
      var k := CountSome(sent[..n], LineOf(sent[n]));
      m := FirstOn(sent, k);
    }
  }

  lemma RelapseRepeats(c: Config, steps: seq<Step>, a: nat, b: nat, d: nat) returns (p: nat, q: nat)
    requires FreshRun(c, steps) && Bounded(SentIn(c, steps)) && Relapse(c, steps, a, b, d)
    ensures p < q < |SentIn(c, steps)| && Repeats(SentIn(c, steps), p, q)
  {
    hide Inv, FreshRun, Bounded, SendsOnWiped, WipesLegacy, At, Count;
    var x, y := |At(c, steps, a).sent|, |At(c, steps, d).sent|;
    StepExtends(c, steps, a);
    StepExtends(c, steps, b);
    StepExtends(c, steps, d);
    Grows(c, steps, a, b);
    Grows(c, steps, b + 1, d);
    Grows(c, steps, a + 1, |steps|);
    Grows(c, steps, d + 1, |steps|);
    var sent := SentIn(c, steps);
    assert LineOf(sent[x]) == Wiped(At(c, steps, a).wipes) && LineOf(sent[y]) == Wiped(At(c, steps, d).wipes);
    var m := FirstOn(sent, x);
    var n := FirstOn(sent, y);
    hide SentIn, Since;
    p, q := if m < n then m else n, if m < n then n else m;
    SharedNonce(c, steps, p, q);
  }

  lemma RepeatRelapses(c: Config, steps: seq<Step>, p: nat, q: nat) returns (a: nat, b: nat, d: nat)
    requires FreshRun(c, steps) && p < q < |SentIn(c, steps)| && Bounded(SentIn(c, steps))
    requires Repeats(SentIn(c, steps), p, q)
    ensures Relapse(c, steps, a, b, d)
  {
    hide Inv, FreshRun, Bounded, SendsOnWiped, WipesLegacy, At, Count;
    SharedNonce(c, steps, p, q);
    var sent := SentIn(c, steps);
    if sent[p].epoch == sent[q].epoch { CountMonotone(sent, p, q, LineOf(sent[p])); }
    a := SentBy(c, steps, |steps|, p);
    d := SentBy(c, steps, |steps|, q);
    if d < a { Grows(c, steps, d + 1, a); }
    Grows(c, steps, a, d);
    b := WipeBetween(c, steps, a, d);
    OnlyThese(At(c, steps, a), steps[a]);
    OnlyThese(At(c, steps, b), steps[b]);
  }

  /**
   A run repeats a nonce exactly if the keepalive thread wipes a valid legacy
   session between two keepalives of wg_connect or wg_rekey without keys.
   */
  lemma RepeatsIff(c: Config, steps: seq<Step>)
    requires FreshRun(c, steps) && Bounded(SentIn(c, steps))
    ensures (exists p, q | 0 <= p < q < |SentIn(c, steps)| :: Repeats(SentIn(c, steps), p, q))
       <==> exists a, b, d :: Relapse(c, steps, a, b, d)
  {
    hide Inv, FreshRun, Bounded, Relapse, SentIn, Repeats;
    if p, q :| 0 <= p < q < |SentIn(c, steps)| && Repeats(SentIn(c, steps), p, q) {
      var a, b, d := RepeatRelapses(c, steps, p, q);
    }
    if a, b, d :| Relapse(c, steps, a, b, d) {
      var p, q := RelapseRepeats(c, steps, a, b, d);
    }
  }
}
