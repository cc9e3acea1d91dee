/**
 What the keys and the transcript of a handshake are made of, read off the finished
 terms: `Inputs` and `Mixed` only peel KDF and hash layers and know nothing of the
 order in which the handshake puts them on.
 */
module Transcript {
  import opened Options
  import opened Noise

  /** The inputs of the KDF layers of a key, the last one first */
  function Inputs(t: Term): seq<Term> {
    if t.Kdf? then [t.input] + Inputs(t.key) else []
  }

  /** Which output of its layer was taken, the last one first */
  function Outputs(t: Term): seq<nat> {
    if t.Kdf? then [t.index] + Outputs(t.key) else []
  }

  /** What the first KDF layer was applied to */
  function Root(t: Term): Term {
    if t.Kdf? then Root(t.key) else t
  }

  /** What was hashed, the last one first */
  function Mixed(t: Term): seq<Term> {
    if t.Hash? then [t.right] + Mixed(t.left) else [t]
  }

  const CONSTRUCTION: Term := Label("Noise_IKpsk2_25519_ChaChaPoly_BLAKE2s")

  const IDENTIFIER: Term := Label("WireGuard v1 zx2c4 Jason@zx2c4.com")

  /** A key with these layers over HASH(CONSTRUCTION) */
  predicate Made(key: Term, outputs: seq<nat>, inputs: seq<Term>) {
    Outputs(key) == outputs && Inputs(key) == inputs && Root(key) == Hash(CONSTRUCTION, Empty)
  }

  /** The chaining key after some layers, of which each first output was taken */
  predicate Chained(ck: Term, inputs: seq<Term>) {
    Made(ck, Firsts(|inputs|), inputs)
  }

  function Firsts(n: nat): seq<nat> { seq(n, _ => 1) }

  lemma ChainedStep(ck: Term, input: Term, inputs: seq<Term>)
    requires Chained(ck, inputs)
    ensures Chained(Kdf(1, ck, input), [input] + inputs)
    ensures forall n: nat :: Made(Kdf(n, ck, input), [n] + Firsts(|inputs|), [input] + inputs)
  {
    assert Firsts(|inputs| + 1) == [1] + Firsts(|inputs|);
  }

  // First message.

  lemma StartMade(peer: Term)
    ensures Chained(Start(peer).ck, [])
    ensures Mixed(Start(peer).hash) == [peer, IDENTIFIER, Empty, CONSTRUCTION]
  {
    assert Root(Start(peer).ck) == Hash(CONSTRUCTION, Empty);
    var h := Start(peer).hash;
    assert Mixed(h.left.left.left) == [CONSTRUCTION];
    assert Mixed(h.left.left) == [Empty, CONSTRUCTION];
    assert Mixed(h.left) == [IDENTIFIER, Empty, CONSTRUCTION];
  }

  lemma InitMade(peer: Term, m: Init, es: Term, ss: Term)
    ensures var key := KeyES(peer, m.ephemeral, es); Made(key, [2, 1], [es, m.ephemeral])
    ensures var s := AfterES(peer, m.ephemeral, es); Made(Kdf(2, s.ck, ss), [2, 1, 1], [ss, es, m.ephemeral])
    ensures Chained(AfterInit(peer, m, es, ss).ck, [ss, es, m.ephemeral])
    ensures Mixed(AfterES(peer, m.ephemeral, es).hash) == [m.ephemeral, peer, IDENTIFIER, Empty, CONSTRUCTION]
    ensures Mixed(AfterInit(peer, m, es, ss).hash)
      == [m.encTimestamp, m.encStatic, m.ephemeral, peer, IDENTIFIER, Empty, CONSTRUCTION]
  {
    var s0 := Start(peer);
    var s1 := TokenE(s0, m.ephemeral);
    var s2 := MixKey(s1, es);
    hide Start, Made, Mixed, Chained;
    StartMade(peer);
    ChainedStep(s0.ck, m.ephemeral, []);
    assert [m.ephemeral] + [] == [m.ephemeral];
    ChainedStep(s1.ck, es, [m.ephemeral]);
    assert [es] + [m.ephemeral] == [es, m.ephemeral];
    ChainedStep(s2.ck, ss, [es, m.ephemeral]);
    assert [ss] + [es, m.ephemeral] == [ss, es, m.ephemeral];
    FewFirsts();
    MixedStep(s0.hash, m.ephemeral);
    MixedStep(s2.hash, m.encStatic);
    MixedStep(Hash(s2.hash, m.encStatic), m.encTimestamp);
  }

  lemma FewFirsts()
    ensures [2] + Firsts(1) == [2, 1] && [2] + Firsts(2) == [2, 1, 1]
  {}

  lemma MixedStep(h: Term, data: Term)
    ensures Mixed(Hash(h, data)) == [data] + Mixed(h)
  {}

  /**
   The first message: the static key is sealed under a key made of the ephemeral and es, the
   timestamp under one made of the ephemeral, es and ss, each over all that was hashed before.
   */
  lemma InitSeals(i: nat, peer: Term, ei: nat, ix: nat, stamp: nat)
    ensures var m := InitMessage(i, peer, ei, ix, stamp);
      && m.sender == ix && m.ephemeral == Pub(ei) && m.encStatic.Sealed? && m.encTimestamp.Sealed?
      && m.encStatic.plain == Pub(i) && m.encTimestamp.plain == Num(stamp)
      && m.encStatic.counter == m.encTimestamp.counter == 0
      && Made(m.encStatic.key, [2, 1], [DH(ei, peer), Pub(ei)])
      && Made(m.encTimestamp.key, [2, 1, 1], [DH(i, peer), DH(ei, peer), Pub(ei)])
      && Mixed(m.encStatic.ad) == [Pub(ei), peer, IDENTIFIER, Empty, CONSTRUCTION]
      && Mixed(m.encTimestamp.ad) == [m.encStatic, Pub(ei), peer, IDENTIFIER, Empty, CONSTRUCTION]
  {
    var m := InitMessage(i, peer, ei, ix, stamp);
    hide Made, Mixed, KeyES, AfterES;
    InitMade(peer, m, DH(ei, peer), DH(i, peer));
    MixedStep(AfterES(peer, Pub(ei), DH(ei, peer)).hash, m.encStatic);
  }

  // Second message and transport keys.

  lemma PskMade(s: Symmetric, er: Term, ee: Term, se: Term, psk: Term, inputs: seq<Term>)
    requires Chained(s.ck, inputs)
    ensures Chained(AfterPsk(s, er, ee, se, psk).ck, [psk, se, ee, er] + inputs)
    ensures Made(KeyPsk(s, er, ee, se, psk), [3] + Firsts(|inputs| + 3), [psk, se, ee, er] + inputs)
    ensures var h := AfterPsk(s, er, ee, se, psk).hash;
      && h.Hash? && Made(h.right, [2] + Firsts(|inputs| + 3), [psk, se, ee, er] + inputs)
      && Mixed(h) == [h.right, er] + Mixed(s.hash)
  {
    var s1 := TokenE(s, er);
    var s2 := MixKey(s1, ee);
    var s3 := MixKey(s2, se);
    hide Made, Mixed, Chained;
    var i1 := [er] + inputs;
    var i2 := [ee] + i1;
    var i3 := [se] + i2;
    ChainedStep(s.ck, er, inputs);
    ChainedStep(s1.ck, ee, i1);
    ChainedStep(s2.ck, se, i2);
    ChainedStep(s3.ck, psk, i3);
    assert [psk] + i3 == [psk, se, ee, er] + inputs;
    MixedStep(s.hash, er);
    MixedStep(s1.hash, AfterPsk(s, er, ee, se, psk).hash.right);
  }

  /**
   What a handshake that reached its end is made of.  A transport key has eight layers over the
   constant: the first ephemeral, es, ss, the second ephemeral, ee, se, the preshared key and nothing.
   */
  ghost predicate Complete(keys: Keys, first: nat, second: nat, hash: Term, nothing: Term, secrets: seq<Term>,
                           m: Init, responder: Term)
    requires |secrets| == 7
  {
    && Made(keys.sending, [first] + Firsts(7), [Empty] + secrets)
    && Made(keys.receiving, [second] + Firsts(7), [Empty] + secrets)
    && nothing.Sealed? && nothing.plain == Empty && nothing.counter == 0
    && Made(nothing.key, [3] + Firsts(6), secrets)
    && nothing.ad.Hash? && Made(nothing.ad.right, [2] + Firsts(6), secrets)
    && Mixed(hash) == [nothing, nothing.ad.right, secrets[3], m.encTimestamp, m.encStatic, m.ephemeral, responder,
                       IDENTIFIER, Empty, CONSTRUCTION]
    && hash == Hash(nothing.ad, nothing)
  }

  lemma OutcomeMade(er: Term, ee: Term, se: Term, psk: Term, ss: Term, es: Term, m: Init, responder: Term,
                    nothing: Term)
    requires var t := AfterInit(responder, m, es, ss);
      nothing == Sealed(KeyPsk(t, er, ee, se, psk), 0, Empty, AfterPsk(t, er, ee, se, psk).hash)
    ensures var v := MixHash(AfterPsk(AfterInit(responder, m, es, ss), er, ee, se, psk), nothing);
      var secrets := [psk, se, ee, er, ss, es, m.ephemeral];
      && Complete(InitiatorKeys(v), 1, 2, v.hash, nothing, secrets, m, responder)
      && Complete(ResponderKeys(v), 2, 1, v.hash, nothing, secrets, m, responder)
  {
    var t := AfterInit(responder, m, es, ss);
    var u := AfterPsk(t, er, ee, se, psk);
    hide AfterInit, AfterPsk, KeyPsk, Made, Mixed, Chained, Firsts;
    InitMade(responder, m, es, ss);
    PskMade(t, er, ee, se, psk, [ss, es, m.ephemeral]);
    var secrets := [psk, se, ee, er, ss, es, m.ephemeral];
    assert [psk, se, ee, er] + [ss, es, m.ephemeral] == secrets;
    ChainedStep(u.ck, Empty, secrets);
    MixedStep(u.hash, nothing);
  }

  /** What the responder of an accepted first message ends with, whoever sent it */
  lemma ResponderMade(r: nat, psk: Term, m: Init, er: nat, rx: nat)
    requires Respond(r, psk, m, er, rx).Some?
    ensures var a := Respond(r, psk, m, er, rx).value;
      var secrets := [psk, DH(er, a.peerStatic), DH(er, m.ephemeral), Pub(er),
                      DH(r, a.peerStatic), DH(r, m.ephemeral), m.ephemeral];
      Complete(ResponderKeys(a.outcome), 2, 1, a.outcome.hash, a.response.encNothing, secrets, m, Pub(r))
  {
    var a := Respond(r, psk, m, er, rx).value;
    hide AfterInit, AfterPsk, KeyPsk, Complete;
    OutcomeMade(Pub(er), DH(er, m.ephemeral), DH(er, a.peerStatic), psk, DH(r, a.peerStatic), DH(r, m.ephemeral), m,
                Pub(r), a.response.encNothing);
  }

  /** What the initiator ends with when it accepts a response, whoever sent it */
  lemma InitiatorMade(i: nat, peer: Term, ei: nat, ix: nat, stamp: nat, psk: Term, resp: Response)
    requires Finish(i, psk, ei, InitState(i, peer, ei, ix, stamp), resp).1
    ensures resp.encNothing.Sealed? && resp.encNothing.plain == Empty ==>
      var v := Finish(i, psk, ei, InitState(i, peer, ei, ix, stamp), resp).0;
      var secrets := [psk, DH(i, resp.ephemeral), DH(ei, resp.ephemeral), resp.ephemeral,
                      DH(i, peer), DH(ei, peer), Pub(ei)];
      Complete(InitiatorKeys(v), 1, 2, v.hash, resp.encNothing, secrets, InitMessage(i, peer, ei, ix, stamp), peer)
  {
    var m := InitMessage(i, peer, ei, ix, stamp);
    assert m.ephemeral == Pub(ei);
    hide AfterInit, AfterPsk, KeyPsk, Complete, InitMessage;
    if resp.encNothing.Sealed? && resp.encNothing.plain == Empty {
      OutcomeMade(resp.ephemeral, DH(ei, resp.ephemeral), DH(i, resp.ephemeral), psk, DH(i, peer), DH(ei, peer), m,
                  peer, resp.encNothing);
    }
  }

  /** After an exchange of unaltered messages: what each side's keys are made of, by its own private keys */
  lemma KeysMade(i: nat, r: nat, ei: nat, er: nat, ix: nat, rx: nat, stamp: nat, psk: Term)
    ensures var a := Respond(r, psk, InitMessage(i, Pub(r), ei, ix, stamp), er, rx);
      var s := Finish(i, psk, ei, InitState(i, Pub(r), ei, ix, stamp), a.value.response).0;
      && a.Some?
      && Inputs(InitiatorKeys(s).sending) == Inputs(InitiatorKeys(s).receiving)
         == [Empty, psk, DH(i, Pub(er)), DH(ei, Pub(er)), Pub(er), DH(i, Pub(r)), DH(ei, Pub(r)), Pub(ei)]
      && Inputs(ResponderKeys(a.value.outcome).sending) == Inputs(ResponderKeys(a.value.outcome).receiving)
         == [Empty, psk, DH(er, Pub(i)), DH(er, Pub(ei)), Pub(er), DH(r, Pub(i)), DH(r, Pub(ei)), Pub(ei)]
  {
    Exchange(i, r, ei, er, ix, rx, stamp, psk, psk);
    InitAccepted(i, r, ei, ix, stamp, psk, er, rx);
    var m := InitMessage(i, Pub(r), ei, ix, stamp);
    assert m.ephemeral == Pub(ei);
    var a := Respond(r, psk, m, er, rx).value;
    assert a.response.ephemeral == Pub(er) && a.response.encNothing.Sealed? && a.response.encNothing.plain == Empty;
    hide Respond, Finish, InitMessage, InitState, Inputs;
    ResponderMade(r, psk, m, er, rx);
    InitiatorMade(i, Pub(r), ei, ix, stamp, psk, a.response);
  }

  // mac1

  /** A mac1 fixes the addressee and every field before it. */
  lemma MacBinds(p: Term, m: Init, p': Term, m': Init)
    ensures InitMac(p, m) == InitMac(p', m')
      <==> p == p' && m.(mac1 := Empty) == m'.(mac1 := Empty)
  {
    var f := [Num(m.sender), m.ephemeral, m.encStatic, m.encTimestamp];
    var f' := [Num(m'.sender), m'.ephemeral, m'.encStatic, m'.encTimestamp];
    if f == f' {
      assert f[0] == f'[0] && f[1] == f'[1] && f[2] == f'[2] && f[3] == f'[3];
    }
  }

  lemma ResponseMacBinds(p: Term, m: Response, p': Term, m': Response)
    ensures ResponseMac(p, m) == ResponseMac(p', m')
      <==> p == p' && m.(mac1 := Empty) == m'.(mac1 := Empty)
  {
    var f := [Num(m.sender), Num(m.receiver), m.ephemeral, m.encNothing];
    var f' := [Num(m'.sender), Num(m'.receiver), m'.ephemeral, m'.encNothing];
    if f == f' {
      assert f[0] == f'[0] && f[1] == f'[1] && f[2] == f'[2] && f[3] == f'[3];
    }
  }
}
