/**
 The handshake code of src/wg_noise.c in its own form: a state of hash, chaining
 key and ephemeral that every token updates in place.
 */
module Handshake {
  import opened Options
  import opened Noise

  class HandshakeState {
    var hash: Term
    var chainingKey: Term
    var ephemeral: nat

    ghost function View(): Symmetric
      reads this
    {
      Symmetric(hash, chainingKey)
    }

    /** wg_handshake_init_state */
    constructor (responderPublic: Term)
      ensures View() == Start(responderPublic)
    {
      var ck := Hash(Label("Noise_IKpsk2_25519_ChaChaPoly_BLAKE2s"), Empty);
      chainingKey := ck;
      hash := Hash(Hash(ck, Label("WireGuard v1 zx2c4 Jason@zx2c4.com")), responderPublic);
      ephemeral := 0;
    }

    /** The copy of a stored state that a handshake goes on with */
    constructor Resume(s: Symmetric, e: nat)
      ensures View() == s && ephemeral == e
    {
      hash, chainingKey, ephemeral := s.hash, s.ck, e;
    }

    /** wg_mix_hash */
    method MixIn(data: Term)
      modifies this`hash
      ensures View() == MixHash(old(View()), data)
    {
      hash := Hash(hash, data);
    }

    /** wg_kdf1 on the chaining key */
    method Kdf1(input: Term)
      modifies this`chainingKey
      ensures View() == MixKey(old(View()), input)
    {
      chainingKey := Kdf(1, chainingKey, input);
    }

    /** wg_kdf2 on the chaining key: also a message key */
    method Kdf2(input: Term) returns (key: Term)
      modifies this`chainingKey
      ensures View() == MixKey(old(View()), input) && key == Kdf(2, old(chainingKey), input)
    {
      key := Kdf(2, chainingKey, input);
      chainingKey := Kdf(1, chainingKey, input);
    }

    /** wg_kdf3 on the chaining key, and the mixing of its middle output into the hash */
    method MixPsk(psk: Term) returns (key: Term)
      modifies this`chainingKey, this`hash
      ensures View() == TokenPsk(old(View()), psk) && key == Kdf(3, old(chainingKey), psk)
    {
      var temp := Kdf(2, chainingKey, psk);
      key := Kdf(3, chainingKey, psk);
      chainingKey := Kdf(1, chainingKey, psk);
      MixIn(temp);
    }

    /** wg_handshake_init and wg_handshake_init_peer, on a state that wg_handshake_init_state has set up */
    method WriteInit(secret: nat, responderPublic: Term, e: nat, index: nat, stamp: nat) returns (m: Init)
      requires View() == Start(responderPublic)
      modifies this
      ensures m == InitMessage(secret, responderPublic, e, index, stamp)
      ensures View() == InitState(secret, responderPublic, e, index, stamp) && ephemeral == e
    {
      ephemeral := e;
      MixIn(Pub(e));
      Kdf1(Pub(e));
      var key := Kdf2(DH(ephemeral, responderPublic));
      var encStatic := Sealed(key, 0, Pub(secret), hash);
      MixIn(encStatic);
      key := Kdf2(DH(secret, responderPublic));
      var encTimestamp := Sealed(key, 0, Num(stamp), hash);
      MixIn(encTimestamp);
      m := Init(index, Pub(e), encStatic, encTimestamp, Empty);
      m := m.(mac1 := InitMac(responderPublic, m));
    }

    /** The first half of wg_handshake_init_process: the initiator's static key, if the message is genuine */
    method ReadInit(secret: nat, m: Init) returns (peer: Option<Term>)
      requires View() == Start(Pub(secret))
      modifies this
      ensures peer == Opens(secret, m)
      ensures peer.Some? ==> View() == AfterInit(Pub(secret), m, DH(secret, m.ephemeral), DH(secret, peer.value))
    {
      if InitMac(Pub(secret), m) != m.mac1 { return None; }
      MixIn(m.ephemeral);
      Kdf1(m.ephemeral);
      var key := Kdf2(DH(secret, m.ephemeral));
      peer := Open(key, 0, m.encStatic, hash);
      if peer.None? { return; }
      MixIn(m.encStatic);
      key := Kdf2(DH(secret, peer.value));
      if Open(key, 0, m.encTimestamp, hash).None? { return None; }
      MixIn(m.encTimestamp);
    }

    /** The second half of wg_handshake_init_process: the response */
    method WriteResponse(psk: Term, m: Init, peer: Term, e: nat, index: nat) returns (r: Response)
      modifies this
      ensures var s := old(View());
        var ee, se := DH(e, m.ephemeral), DH(e, peer);
        var u := AfterPsk(s, Pub(e), ee, se, psk);
        && r.encNothing == Sealed(KeyPsk(s, Pub(e), ee, se, psk), 0, Empty, u.hash)
        && View() == MixHash(u, r.encNothing)
        && r.sender == index && r.receiver == m.sender && r.ephemeral == Pub(e)
        && r.mac1 == ResponseMac(peer, r.(mac1 := Empty))
    {
      MixIn(Pub(e));
      Kdf1(Pub(e));
      Kdf1(DH(e, m.ephemeral));
      Kdf1(DH(e, peer));
      var key := MixPsk(psk);
      var nothing := Sealed(key, 0, Empty, hash);
      MixIn(nothing);
      r := Response(index, m.sender, Pub(e), nothing, Empty);
      r := r.(mac1 := ResponseMac(peer, r));
    }

    /** wg_handshake_response and wg_handshake_init_process_response, on the state of the handshake it answers */
    method ReadResponse(secret: nat, psk: Term, r: Response) returns (ok: bool)
      modifies this
      ensures (View(), ok) == Finish(secret, psk, ephemeral, old(View()), r) && ephemeral == old(ephemeral)
    {
      MixIn(r.ephemeral);
      Kdf1(r.ephemeral);
      Kdf1(DH(ephemeral, r.ephemeral));
      Kdf1(DH(secret, r.ephemeral));
      var key := MixPsk(psk);
      ok := Open(key, 0, r.encNothing, hash).Some?;
      if ok { MixIn(r.encNothing); }
    }
  }

  /** wg_handshake_init_state and the first message, with the state kept for the response */
  method Initiate(secret: nat, responderPublic: Term, e: nat, index: nat, stamp: nat) returns (m: Init, s: Symmetric)
    ensures m == InitMessage(secret, responderPublic, e, index, stamp)
    ensures s == InitState(secret, responderPublic, e, index, stamp)
  {
    hide InitMessage, InitState, Start;
    var state := new HandshakeState(responderPublic);
    m := state.WriteInit(secret, responderPublic, e, index, stamp);
    s := Symmetric(state.hash, state.chainingKey);
  }

  /** The response on the state that was kept */
  method Complete(secret: nat, psk: Term, e: nat, s: Symmetric, r: Response) returns (t: Symmetric, ok: bool)
    ensures (t, ok) == Finish(secret, psk, e, s, r)
  {
    hide Finish;
    var state := new HandshakeState.Resume(s, e);
    ok := state.ReadResponse(secret, psk, r);
    t := Symmetric(state.hash, state.chainingKey);
  }

  /** wg_handshake_init_process up to the session: the state machine does what the protocol's responder does. */
  method Answer(secret: nat, psk: Term, m: Init, e: nat, index: nat) returns (a: Option<Accepted>)
    ensures a == Respond(secret, psk, m, e, index)
  {
    var state := new HandshakeState(Pub(secret));
    var peer := state.ReadInit(secret, m);
    if peer.None? { return None; }
    var r := state.WriteResponse(psk, m, peer.value, e, index);
    a := Some(Accepted(peer.value, r, Symmetric(state.hash, state.chainingKey)));
  }

  /** The static key inside a first message addressed to `secret`; None if a tag or mac1 does not match */
  function Opens(secret: nat, m: Init): (r: Option<Term>)
    ensures forall psk, e, index :: Respond(secret, psk, m, e, index).Some? == r.Some?
    ensures forall psk, e, index :: r.Some? ==> Respond(secret, psk, m, e, index).value.peerStatic == r.value
  {
    var a := Respond(secret, Zero, m, 0, 0);
    if a.Some? then Some(a.value.peerStatic) else None
  }
}
