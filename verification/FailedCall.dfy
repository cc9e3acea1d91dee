/** What a call of wg_rekey that fails leaves behind. */
module FailedCall {
  import opened Options
  import opened Noise
  import opened Tunnel
  import opened TunnelInvariants
  import opened Nonces
  import opened NonceRuns
  import opened Calls

  /** A call began with step b and is still in progress before step n. */
  ghost predicate InCall(c: Config, steps: seq<Step>, b: nat, n: nat) {
    && b < n <= |steps| && At(c, steps, b).call.Idle?
    && forall k | b < k <= n :: At(c, steps, k).call.Busy?
  }

  lemma SavedStep(w: World, step: Step)
    requires Inv(w) && RingsShaped(w.tun) && Next(w, step).call.Busy?
    ensures Next(w, step).call.saved == if w.call.Busy? then w.call.saved else w.tun.session.localIndex
  {
    if Acts(w, step) {
      hide Inv, RingsShaped, AfterInitProcess, InitState, Finish;
    } else {
      CallRests(w, step);
    }
  }

  /** The index to restore is the one that the session had when the call began. */
  lemma {:induction false} SavedKept(c: Config, steps: seq<Step>, b: nat, n: nat)
    requires InCall(c, steps, b, n)
    ensures At(c, steps, n).call.saved == At(c, steps, b).tun.session.localIndex
  {
    hide At, Inv, Next, RingsShaped;
    AtNext(c, steps, n - 1);
    assert At(c, steps, n).call.Busy?;
    if n - 1 > b {
      assert At(c, steps, n - 1).call.Busy?;
      SavedKept(c, steps, b, n - 1);
    }
    SavedStep(At(c, steps, n - 1), steps[n - 1]);
  }

  /**
   Whatever the other threads do meanwhile: wg_rekey returns an error with the session's index as it
   was when the call began, no rekey in progress, and everything else as the last attempt left it.
   */
  lemma FailedRekey(c: Config, steps: seq<Step>, b: nat, n: nat)
    requires InCall(c, steps, b, n) && n < |steps| && At(c, steps, n + 1).call.Idle?
    requires At(c, steps, n).call.rekey && At(c, steps, n).call.err != Ok
    ensures var w, v := At(c, steps, n), At(c, steps, n + 1);
      && v.tun == w.tun.(session := w.tun.session.(rekeyInProgress := false,
                                                   localIndex := At(c, steps, b).tun.session.localIndex))
      && v.sent == w.sent && v.installs == w.installs
  {
    hide At, Inv, RingsShaped;
    SavedKept(c, steps, b, n);
    AtNext(c, steps, n);
    var w := At(c, steps, n);
    if !Acts(w, steps[n]) {
      CallRests(w, steps[n]);
    } else {
      OnlyReturn(w, steps[n]);
    }
  }

  lemma OnlyReturn(w: World, step: Step)
    requires RingsShaped(w.tun) && w.call.Busy? && Acts(w, step) && Next(w, step).call.Idle?
    ensures step.Return?
  {
    hide RingsShaped, AfterInitProcess, InitState, Finish;
  }
}
