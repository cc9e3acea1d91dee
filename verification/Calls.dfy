/**
 What wg_connect and wg_rekey return.  A call is the part of a run between the
 first attempt and the return, with the steps of the other threads in between.
 */
module Calls {
  import opened Options
  import opened Noise
  import opened Tunnel
  import opened TunnelInvariants
  import opened Nonces
  import opened NonceRuns

  /** A step of the calling thread that it can take in this state */
  predicate Acts(w: World, step: Step) {
    match step
    case ConnectInit(_, _, _, rekey) => MayAttempt(w, rekey)
    case ConnectResponse(_, _) => Awaiting(w, false)
    case ConnectPassive(_, _, _, _) => Awaiting(w, false)
    case RekeyResponse(_) => Awaiting(w, true) && w.tun.pendingResponse.Some?
    case AttemptFailed(cause) => MayFail(w, cause)
    case Return(_) => MayReturn(w)
    case _ => false
  }

  predicate EndsAttempt(w: World, step: Step) { Acts(w, step) && !step.ConnectInit? && !step.Return? }

  // One step.

  lemma CallerIdles(w: World, step: Step)
    requires RingsShaped(w.tun) && FromConnect(step) && !Acts(w, step)
    ensures Next(w, step) == w
  {
    hide RingsShaped, AfterInitProcess, AfterHandshakeResponse, InitState;
  }

  lemma OthersApart(w: World, step: Step)
    requires Inv(w) && RingsShaped(w.tun) && !FromConnect(step)
    ensures Next(w, step).call == w.call && Next(w, step).connecting == w.connecting
  {
    if step.ReceiveResponse? { ResponsesIgnored(w, step.response, step.now); }
    hide Inv, RingsShaped, AfterTransport, AfterReceiveResponse, AfterInitProcess, InitState;
  }

  /** Only the calling thread's own steps touch the call. */
  lemma CallRests(w: World, step: Step)
    requires Inv(w) && RingsShaped(w.tun) && !Acts(w, step)
    ensures Next(w, step).call == w.call && Next(w, step).connecting == w.connecting
  {
    hide Inv, RingsShaped, Next, Acts;
    if FromConnect(step) { CallerIdles(w, step); } else { OthersApart(w, step); }
  }

  /** While an attempt is under way, `err` is what wg_handshake_init returned. */
  predicate CallInv(w: World) {
    && (w.connecting.Some? ==> w.call.Busy? && w.call.err == Ok && !w.call.left)
    && (w.call.Busy? ==> 0 < w.call.attempt <= MAX_ATTEMPTS)
  }

  lemma Begins(w: World, step: Step)
    requires RingsShaped(w.tun) && CallInv(w) && step.ConnectInit? && Acts(w, step)
    ensures var v := Next(w, step);
      && CallInv(v) && v.connecting.Some? && v.installs == w.installs && v.call.rekey == step.rekey
      && v.call.attempt == (if w.call.Idle? then 1 else w.call.attempt + 1)
  {
    hide RingsShaped, InitState;
  }

  /** The attempt ends without keys, and `err` is left as wg_handshake_init set it. */
  predicate Unkeyed(w: World, step: Step) {
    if w.call.Busy? && w.call.rekey then step == AttemptFailed(Cookie)
    else step.ConnectPassive? && Respond(w.tun.secret, w.tun.psk, step.init, step.ephemeral, step.index).None?
  }

  /** With keys, and the loop is left; or without, and then only an unkeyed end has `err` at WG_OK. */
  predicate EndsAs(w: World, v: World, unkeyed: bool)
    requires w.call.Busy?
  {
    && v.connecting.None? && v.call.Busy? && v.call == w.call.(err := v.call.err, left := v.call.left)
    && if v.installs != w.installs then v.call.err == Ok && v.call.left && !unkeyed
       else (v.call.err == Ok <==> unkeyed) && (unkeyed ==> !v.call.left)
  }

  lemma PassiveEnds(w: World, step: Step)
    requires CallInv(w) && step.ConnectPassive? && Awaiting(w, false)
    ensures EndsAs(w, AfterConnectPassive(w, step.init, step.ephemeral, step.index, step.now), Unkeyed(w, step))
  {
    PassiveInstalls(w, step.init, step.ephemeral, step.index, step.now);
    hide AfterInitProcess, Respond;
  }

  lemma ResponseEnds(w: World, r: Response, now: nat)
    requires CallInv(w) && w.connecting.Some?
    ensures EndsAs(w, AfterHandshakeResponse(w, r, now), false)
  {
    hide Finish;
  }

  lemma FailureEnds(w: World, cause: Failure)
    requires CallInv(w) && MayFail(w, cause)
    ensures EndsAs(w, AfterAttemptFailed(w, cause), Unkeyed(w, AttemptFailed(cause)))
  {}

  /** How an attempt ends: exactly two ways without keys leave `err` as wg_handshake_init set it. */
  lemma Ends(w: World, step: Step)
    requires RingsShaped(w.tun) && CallInv(w) && EndsAttempt(w, step)
    ensures CallInv(Next(w, step)) && w.call.Busy? && EndsAs(w, Next(w, step), Unkeyed(w, step))
  {
    hide RingsShaped, AfterHandshakeResponse, AfterInitProcess, AfterAttemptFailed, Respond, AfterConnectPassive;
    if step.ConnectPassive? {
      PassiveEnds(w, step);
    } else if step.ConnectResponse? {
      ResponseEnds(w, step.response, step.now);
    } else if step.RekeyResponse? {
      ResponseEnds(w, w.tun.pendingResponse.value, step.now);
    } else {
      FailureEnds(w, step.cause);
    }
  }

  lemma PassiveInstalls(w: World, m: Init, ephemeral: nat, index: nat, now: nat)
    ensures var (v, ok) := AfterInitProcess(w, m, ephemeral, index, now);
      && ok == Respond(w.tun.secret, w.tun.psk, m, ephemeral, index).Some?
      && |v.installs| == |w.installs| + (if ok then 1 else 0) && (!ok ==> v.installs == w.installs)
  {
    hide Respond;
  }

  lemma Returns(w: World, step: Step)
    requires RingsShaped(w.tun) && CallInv(w) && step.Return? && Acts(w, step)
    ensures Next(w, step).call.Idle? && CallInv(Next(w, step)) && Next(w, step).installs == w.installs
    ensures |Next(w, step).sent| == |w.sent| + (if w.call.err == Ok then 1 else 0)
  {
    hide RingsShaped;
  }

  // The calling thread alone.

  /** What a step is to the calling thread: nothing, the start of an attempt, its end, or the end of the call */
  datatype Kind = Rest | Begin(rekey: bool) | End(keys: bool, unkeyed: bool) | Exit

  function KindOf(w: World, step: Step): Kind
    requires RingsShaped(w.tun)
  {
    if !Acts(w, step) then Rest
    else if step.ConnectInit? then Begin(step.rekey)
    else if step.Return? then Exit
    else End(Next(w, step).installs != w.installs, Unkeyed(w, step))
  }

  /** The loop's variables, and whether an attempt is under way */
  datatype Phase = Phase(call: Call, waiting: bool)

  function PhaseOf(w: World): Phase { Phase(w.call, w.connecting.Some?) }

  predicate Link(p: Phase, kind: Kind, q: Phase) {
    match kind
    case Rest => q == p
    case Begin(rekey) =>
      && (p.call.Busy? ==> p.call.rekey == rekey && !p.call.left && p.call.attempt < MAX_ATTEMPTS)
      && !p.waiting && q.waiting && q.call.Busy? && q.call.rekey == rekey
      && q.call.attempt == (if p.call.Idle? then 1 else p.call.attempt + 1)
    case End(keys, unkeyed) =>
      && p.waiting && p.call.Busy? && !q.waiting && q.call.Busy?
      && q.call == p.call.(err := q.call.err, left := q.call.left)
      && if keys then q.call.err == Ok && q.call.left && !unkeyed
         else (q.call.err == Ok <==> unkeyed) && (unkeyed ==> !q.call.left)
    case Exit =>
      && !p.waiting && p.call.Busy? && (p.call.left || p.call.attempt >= MAX_ATTEMPTS)
      && q == Phase(Idle, false)
  }

  lemma StepLinks(w: World, step: Step)
    requires Inv(w) && RingsShaped(w.tun) && CallInv(w)
    ensures Link(PhaseOf(w), KindOf(w, step), PhaseOf(Next(w, step))) && CallInv(Next(w, step))
  {
    if !Acts(w, step) {
      hide Inv, RingsShaped, Next, Unkeyed, Acts;
      CallRests(w, step);
    } else if step.ConnectInit? {
      hide Inv, RingsShaped, Next, Unkeyed;
      Begins(w, step);
    } else if step.Return? {
      hide Inv, RingsShaped, Next, Unkeyed;
      Returns(w, step);
    } else {
      Awaits(w, step);
      hide Inv, RingsShaped, Next, Unkeyed, Acts;
      Ends(w, step);
    }
  }

  lemma Awaits(w: World, step: Step)
    requires EndsAttempt(w, step)
    ensures w.call.Busy? && w.connecting.Some?
  {}

  // Its part of a run.

  ghost predicate Linked(phases: seq<Phase>, kinds: seq<Kind>) {
    && |phases| == |kinds| + 1
    && forall k | 0 <= k < |kinds| :: Link(phases[k], kinds[k], phases[k + 1])
  }

  /** One call: it starts with step b and returns with step n. */
  ghost predicate IsCall(phases: seq<Phase>, kinds: seq<Kind>, b: nat, n: nat)
    requires |phases| == |kinds| + 1
  {
    && b < n < |kinds| && phases[b].call.Idle? && kinds[b].Begin? && kinds[n].Exit?
    && forall k | b < k < n :: !kinds[k].Exit?
  }

  /** The last thing that the calling thread does before step n */
  ghost predicate LastBefore(kinds: seq<Kind>, m: nat, n: nat) {
    m < n <= |kinds| && !kinds[m].Rest? && forall k | m < k < n :: kinds[k].Rest?
  }

  /** How many attempts begin from step b to step n */
  function Attempts(kinds: seq<Kind>, b: nat, n: nat): nat
    requires b <= n <= |kinds|
  {
    if b == n then 0 else Attempts(kinds, b, n - 1) + (if kinds[n - 1].Begin? then 1 else 0)
  }

  /** A step of the call installs keys. */
  ghost predicate Installs(kinds: seq<Kind>, b: nat, n: nat)
    requires n <= |kinds|
  {
    exists k | b <= k < n :: kinds[k].End? && kinds[k].keys
  }

  lemma {:induction false} Resting(phases: seq<Phase>, kinds: seq<Kind>, m: nat, n: nat)
    requires Linked(phases, kinds) && m <= n <= |kinds| && forall k | m <= k < n :: kinds[k].Rest?
    ensures phases[n] == phases[m]
  {
    if m < n { Resting(phases, kinds, m, n - 1); }
  }

  /** In the course of a call, its attempts are counted. */
  lemma {:induction false} Counting(phases: seq<Phase>, kinds: seq<Kind>, b: nat, n: nat, k: nat)
    requires Linked(phases, kinds) && IsCall(phases, kinds, b, n) && b < k <= n
    ensures phases[k].call.Busy? && phases[k].call.attempt == Attempts(kinds, b, k) <= MAX_ATTEMPTS
  {
    if k - 1 > b { Counting(phases, kinds, b, n, k - 1); }
  }

  /** Once the loop has been left, the calling thread only returns. */
  lemma {:induction false} Leaving(phases: seq<Phase>, kinds: seq<Kind>, k: nat, n: nat)
    requires Linked(phases, kinds) && k <= n <= |kinds| && forall j | k <= j < n :: !kinds[j].Exit?
    requires phases[k].call.Busy? && phases[k].call.left && !phases[k].waiting
    ensures forall j | k <= j < n :: kinds[j].Rest?
  {
    if k < n {
      Leaving(phases, kinds, k, n - 1);
      Resting(phases, kinds, k, n - 1);
      assert Link(phases[n - 1], kinds[n - 1], phases[n]);
    }
  }

  /** Only the last attempt can have installed keys. */
  lemma LastInstalls(phases: seq<Phase>, kinds: seq<Kind>, b: nat, m: nat, n: nat)
    requires Linked(phases, kinds) && IsCall(phases, kinds, b, n) && LastBefore(kinds, m, n)
    ensures kinds[m].End? && (Installs(kinds, b, n) <==> kinds[m].keys)
  {
    Resting(phases, kinds, m + 1, n);
    assert Link(phases[m], kinds[m], phases[m + 1]) && Link(phases[n], kinds[n], phases[n + 1]);
    assert b <= m;
    if k :| b <= k < n && kinds[k].End? && kinds[k].keys {
      assert Link(phases[k], kinds[k], phases[k + 1]);
      Leaving(phases, kinds, k + 1, n);
      assert k == m;
    }
  }

  lemma NoKeys(phases: seq<Phase>, kinds: seq<Kind>, b: nat, m: nat, n: nat)
    requires Linked(phases, kinds) && IsCall(phases, kinds, b, n) && LastBefore(kinds, m, n)
    ensures kinds[m].End? && (kinds[m].unkeyed ==> !Installs(kinds, b, n))
  {
    LastInstalls(phases, kinds, b, m, n);
    assert Link(phases[m], kinds[m], phases[m + 1]);
  }

  lemma CallResult(phases: seq<Phase>, kinds: seq<Kind>, b: nat, m: nat, n: nat)
    requires Linked(phases, kinds) && IsCall(phases, kinds, b, n) && LastBefore(kinds, m, n)
    ensures phases[n].call.Busy? && kinds[m].End?
    ensures phases[n].call.err == Ok && !Installs(kinds, b, n)
       <==> kinds[m].unkeyed && Attempts(kinds, b, n) == MAX_ATTEMPTS
  {
    LastInstalls(phases, kinds, b, m, n);
    Resting(phases, kinds, m + 1, n);
    Counting(phases, kinds, b, n, n);
    hide Installs, Attempts;
    assert Link(phases[m], kinds[m], phases[m + 1]) && Link(phases[n], kinds[n], phases[n + 1]);
  }

  // Runs of the tunnel.

  lemma {:induction false} CallKept(c: Config, steps: seq<Step>, n: nat)
    requires n <= |steps|
    ensures CallInv(At(c, steps, n))
  {
    if n == 0 {
      assert steps[..0] == [];
    } else {
      hide At, Inv, RingsShaped, Next, CallInv, KindOf, PhaseOf, Link;
      CallKept(c, steps, n - 1);
      AtNext(c, steps, n - 1);
      StepLinks(At(c, steps, n - 1), steps[n - 1]);
    }
  }

  /** The calling thread's view of a run */
  ghost function Phases(c: Config, steps: seq<Step>): (phases: seq<Phase>)
    ensures |phases| == |steps| + 1
  {
    seq(|steps| + 1, k requires 0 <= k <= |steps| => PhaseOf(At(c, steps, k)))
  }

  ghost function Kinds(c: Config, steps: seq<Step>): (kinds: seq<Kind>)
    ensures |kinds| == |steps|
  {
    seq(|steps|, k requires 0 <= k < |steps| => KindAt(c, steps, k))
  }

  ghost function KindAt(c: Config, steps: seq<Step>, k: nat): Kind
    requires k < |steps|
  {
    InvShaped(At(c, steps, k));
    KindOf(At(c, steps, k), steps[k])
  }

  lemma RunLinked(c: Config, steps: seq<Step>)
    ensures Linked(Phases(c, steps), Kinds(c, steps))
  {
    hide At, Inv, RingsShaped, Next, CallInv, KindOf, PhaseOf, Link;
    forall k | 0 <= k < |steps|
      ensures Link(Phases(c, steps)[k], Kinds(c, steps)[k], Phases(c, steps)[k + 1])
    {
      CallKept(c, steps, k);
      AtNext(c, steps, k);
      StepLinks(At(c, steps, k), steps[k]);
    }
  }

  /**
   In every run, whatever the other threads do meanwhile: a call returns WG_OK
   without having installed keys exactly if it has used up its eighteen attempts
   and the last one ended, for wg_connect, with a first message that it refused,
   and for wg_rekey with a cookie.
   */
  lemma ConnectedWithoutKeys(c: Config, steps: seq<Step>, b: nat, m: nat, n: nat)
    requires IsCall(Phases(c, steps), Kinds(c, steps), b, n) && LastBefore(Kinds(c, steps), m, n)
    ensures MayReturn(At(c, steps, n)) && steps[n].Return?
    ensures At(c, steps, n).call.err == Ok && !Installs(Kinds(c, steps), b, n)
       <==> Attempts(Kinds(c, steps), b, n) == MAX_ATTEMPTS && Unkeyed(At(c, steps, m), steps[m])
  {
    hide At, Inv, RingsShaped, Next, Installs, Attempts, Linked, Unkeyed, KindAt, PhaseOf;
    RunLinked(c, steps);
    CallResult(Phases(c, steps), Kinds(c, steps), b, m, n);
    KindMeans(c, steps, m);
    KindMeans(c, steps, n);
    PhaseMeans(c, steps, n);
  }

  lemma KindMeans(c: Config, steps: seq<Step>, k: nat)
    requires k < |steps|
    ensures var kind, w := Kinds(c, steps)[k], At(c, steps, k);
      && (kind.Exit? ==> steps[k].Return? && MayReturn(w))
      && (kind.End? ==> EndsAttempt(w, steps[k]) && kind.unkeyed == Unkeyed(w, steps[k]))
  {
    hide At, Inv, RingsShaped, Next, Unkeyed;
  }

  lemma PhaseMeans(c: Config, steps: seq<Step>, k: nat)
    requires k <= |steps|
    ensures Phases(c, steps)[k].call == At(c, steps, k).call
  {
    hide At, Inv;
  }

  // Why the keepalive of a call can find the legacy session without keys.

  lemma TransportKeepsValid(t: Tunnel, receiver: nat, counter: nat, cipher: Term, length: nat, now: nat)
    requires RingsShaped(t)
    ensures AfterTransport(t, receiver, counter, cipher, length, now).session.valid == t.session.valid
  {
    OpenedKept(t.session, counter, cipher, length, now);
    hide RingsShaped, Select, Opened, OnCurrent, OnPrevious, Expired;
  }

  lemma CallerKeepsValid(w: World, step: Step)
    requires RingsShaped(w.tun) && FromConnect(step) && w.tun.session.valid
    ensures Next(w, step).tun.session.valid
  {
    hide RingsShaped, Respond, Finish, InitState, FindByKey;
  }

  lemma OthersKeepValid(w: World, step: Step)
    requires RingsShaped(w.tun) && !FromConnect(step) && !step.ReceiveResponse? && !step.ReceiveTransport?
    requires w.tun.session.valid && !WipesLegacy(w, step)
    ensures Next(w, step).tun.session.valid
  {
    hide RingsShaped, Respond, InitState, FindByKey;
  }

  /** The legacy session loses its keys in one way only. */
  lemma LegacyLoses(w: World, step: Step)
    requires Inv(w) && RingsShaped(w.tun) && w.tun.session.valid && !WipesLegacy(w, step)
    ensures Next(w, step).tun.session.valid
  {
    if step.ReceiveResponse? {
      ResponsesIgnored(w, step.response, step.now);
      hide Inv, RingsShaped, AfterReceiveResponse;
    } else if step.ReceiveTransport? {
      TransportKeepsValid(w.tun, step.receiver, step.counter, step.cipher, step.length, step.now);
      hide Inv, RingsShaped, AfterTransport;
    } else {
      hide Inv, RingsShaped, Next, WipesLegacy;
      if FromConnect(step) { CallerKeepsValid(w, step); } else { OthersKeepValid(w, step); }
    }
  }

  lemma {:induction false} LegacyLost(c: Config, steps: seq<Step>, m: nat, n: nat) returns (k: nat)
    requires m <= n <= |steps| && At(c, steps, m).tun.session.valid && !At(c, steps, n).tun.session.valid
    ensures m <= k < n && WipesLegacy(At(c, steps, k), steps[k])
    decreases n
  {
    hide At, Inv, RingsShaped, Next, WipesLegacy;
    AtNext(c, steps, n - 1);
    if WipesLegacy(At(c, steps, n - 1), steps[n - 1]) {
      k := n - 1;
    } else if At(c, steps, n - 1).tun.session.valid {
      LegacyLoses(At(c, steps, n - 1), steps[n - 1]);
      assert false;
    } else {
      k := LegacyLost(c, steps, m, n - 1);
    }
  }

  /** wg_connect has answered a table peer, whose keys do not go into the legacy session. */
  predicate AnswersPeer(w: World, step: Step) {
    && step.ConnectPassive?
    && var a := Respond(w.tun.secret, w.tun.psk, step.init, step.ephemeral, step.index);
       a.Some? && FindByKey(w.tun, a.value.peerStatic).Some?
  }

  lemma KeysAfter(w: World, step: Step)
    requires RingsShaped(w.tun) && CallInv(w) && EndsAttempt(w, step) && Next(w, step).call.Busy?
    requires Next(w, step).call.err == Ok && !Unkeyed(w, step) && !AnswersPeer(w, step)
    ensures Next(w, step).tun.session.valid
  {
    Ends(w, step);
    hide RingsShaped, Finish, FindByKey;
    if step.ConnectPassive? { hide Respond; }
  }

  /**
   A call that returns WG_OK and finds the legacy session without keys has used up
   its attempts on nothing, has answered a table peer, or has got keys that the
   keepalive thread has wiped since.
   */
  lemma WhyWiped(c: Config, steps: seq<Step>, b: nat, m: nat, n: nat)
    requires IsCall(Phases(c, steps), Kinds(c, steps), b, n) && LastBefore(Kinds(c, steps), m, n)
    requires At(c, steps, n).call.Busy? && At(c, steps, n).call.err == Ok && !At(c, steps, n).tun.session.valid
    ensures || (Attempts(Kinds(c, steps), b, n) == MAX_ATTEMPTS && Unkeyed(At(c, steps, m), steps[m]))
            || AnswersPeer(At(c, steps, m), steps[m])
            || exists k | m < k < n :: WipesLegacy(At(c, steps, k), steps[k])
  {
    hide At, Inv, RingsShaped, Next, Installs, Attempts, Linked, Unkeyed, KindAt, PhaseOf, AnswersPeer, WipesLegacy,
      Acts;
    RunLinked(c, steps);
    CallKept(c, steps, m);
    LastInstalls(Phases(c, steps), Kinds(c, steps), b, m, n);
    Resting(Phases(c, steps), Kinds(c, steps), m + 1, n);
    KindMeans(c, steps, m);
    PhaseMeans(c, steps, m + 1);
    PhaseMeans(c, steps, n);
    AtNext(c, steps, m);
    ConnectedWithoutKeys(c, steps, b, m, n);
    var w, step := At(c, steps, m), steps[m];
    if !Unkeyed(w, step) && !AnswersPeer(w, step) {
      KeysAfter(w, step);
      var k := LegacyLost(c, steps, m + 1, n);
    } else if Unkeyed(w, step) {
      NoKeys(Phases(c, steps), Kinds(c, steps), b, m, n);
    }
  }
}
