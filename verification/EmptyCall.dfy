/** For every tunnel, calls of wg_connect and wg_rekey that return WG_OK although no handshake takes place. */
module EmptyCall {
  import opened Options
  import opened Noise
  import opened Tunnel
  import opened TunnelInvariants
  import opened Nonces
  import opened NonceRuns
  import opened Calls
  import Replay

  /** A first message whose mac1 is not the keyed hash of its fields is refused. */
  lemma BadMacRefused(secret: nat, psk: Term, m: Init, ephemeral: nat, index: nat)
    requires m.mac1 != InitMac(Pub(secret), m)
    ensures Respond(secret, psk, m, ephemeral, index).None?
  {}

  const STRAY: Init := Init(0, Empty, Empty, Empty, Empty)

  /** How every attempt ends: with a stray first message, or with a cookie */
  function Outcome(rekey: bool, x: nat): Step {
    if rekey then AttemptFailed(Cookie) else ConnectPassive(STRAY, x, 0, 0)
  }

  lemma Starts(w: World, rekey: bool, x: nat)
    requires RingsShaped(w.tun) && MayAttempt(w, rekey)
    ensures var u := Next(w, ConnectInit(x, 0, 0, rekey));
      && RingsShaped(u.tun) && u.used == w.used + {x}
      && Awaiting(u, rekey) && u.call == Attempting(w, rekey) && u.installs == w.installs
  {
    hide InitState, Replay.Fits;
  }

  lemma Stops(w: World, rekey: bool, x: nat)
    requires RingsShaped(w.tun) && Awaiting(w, rekey)
    ensures var v := Next(w, Outcome(rekey, x));
      v.connecting.None? && v.call == w.call.(left := false) && v.installs == w.installs && v.used <= w.used + {x}
  {
    BadMacRefused(w.tun.secret, w.tun.psk, STRAY, x, 0);
    hide RingsShaped, Respond;
  }

  /** One such attempt leaves nothing behind but `err` at WG_OK. */
  lemma OneAttempt(w: World, rekey: bool, x: nat)
    requires RingsShaped(w.tun) && MayAttempt(w, rekey)
    ensures var u := Next(w, ConnectInit(x, 0, 0, rekey));
      && RingsShaped(u.tun) && u.used == w.used + {x}
      && var v := Next(u, Outcome(rekey, x + 1));
         && v.connecting.None? && v.call == Attempting(w, rekey) && v.installs == w.installs
         && v.used <= w.used + {x, x + 1}
  {
    hide RingsShaped, Next, Outcome;
    Starts(w, rekey, x);
    Stops(Next(w, ConnectInit(x, 0, 0, rekey)), rekey, x + 1);
  }

  /** After k such attempts of a call on a new tunnel */
  predicate Spent(c: Config, w: World, rekey: bool, k: nat) {
    && w.connecting.None? && w.installs == []
    && (if k == 0 then w.call.Idle?
        else w.call.Busy? && w.call.rekey == rekey && w.call.attempt == k && w.call.err == Ok && !w.call.left)
    && forall x | x in w.used :: x <= c.secret + 2*k
  }

  lemma {:induction false} Attempted(c: Config, rekey: bool, k: nat) returns (steps: seq<Step>)
    requires k <= MAX_ATTEMPTS
    ensures |steps| == 2*k && FreshRun(c, steps) && Spent(c, At(c, steps, 2*k), rekey, k)
  {
    if k == 0 {
      steps := [];
      Nothing(c, rekey);
    } else {
      steps := Attempted(c, rekey, k - 1);
      steps := OneMore(c, steps, rekey, k);
    }
  }

  lemma Nothing(c: Config, rekey: bool)
    ensures FreshRun(c, []) && Spent(c, At(c, [], 0), rekey, 0)
  {}

  lemma OneMore(c: Config, steps: seq<Step>, rekey: bool, k: nat) returns (steps': seq<Step>)
    requires 0 < k <= MAX_ATTEMPTS && |steps| == 2*k - 2 && FreshRun(c, steps)
    requires Spent(c, At(c, steps, |steps|), rekey, k - 1)
    ensures |steps'| == 2*k && FreshRun(c, steps') && Spent(c, At(c, steps', 2*k), rekey, k)
  {
    hide At, Inv, RingsShaped, Next, FreshRun;
    var w := At(c, steps, |steps|);
    var x := c.secret + 2*k - 1;
    var first, last := ConnectInit(x, 0, 0, rekey), Outcome(rekey, x + 1);
    GrowFresh(c, steps, first);
    OneAttempt(w, rekey, x);
    var middle := steps + [first];
    GrowFresh(c, middle, last);
    steps' := middle + [last];
  }

  /** Eighteen of them, and the call returns WG_OK; no keys have been installed in the whole run. */
  lemma ReturnsForNothing(c: Config, rekey: bool) returns (steps: seq<Step>, n: nat)
    ensures |steps| == n + 1 && steps[n].Return? && FreshRun(c, steps)
    ensures var w, v := At(c, steps, n), At(c, steps, n + 1);
      && MayReturn(w) && w.call.rekey == rekey && w.call.err == Ok
      && v.call.Idle? && v.installs == [] && |v.sent| == |w.sent| + 1
  {
    hide At, Inv, RingsShaped, FreshRun;
    steps := Attempted(c, rekey, MAX_ATTEMPTS);
    n := 2*MAX_ATTEMPTS;
    GrowFresh(c, steps, Return(0));
    Grow(c, steps, [Return(0)], n);
    steps := steps + [Return(0)];
  }
}
