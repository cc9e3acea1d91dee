/**
 The Noise IKpsk2 handshake of src/wg_noise.c over a free term algebra.

 Hash, KDF and AEAD are constructors, so two results are equal only when their
 inputs are.  A Diffie-Hellman result of two private keys is their unordered
 pair; anything else that arrives in place of a public key is kept as it is.
 */
module Noise {
  import opened Options

  datatype Term =
    | Label(name: string)                                             // protocol constants
    | Num(n: nat)                                                     // indices and timestamps
    | Zero                                                            // 32 zero bytes
    | Empty                                                           // no bytes
    | Key(id: nat)                                                    // a preshared key
    | Pub(id: nat)                                                    // the public key of private key `id`
    | Junk(id: nat)                                                   // bytes that are no honest value
    | Shared(low: nat, high: nat)                                     // DH of two private keys
    | Raised(id: nat, point: Term)                                    // DH with something that is no honest public key
    | Hash(left: Term, right: Term)                                   // HASH(left || right)
    | Kdf(index: nat, key: Term, input: Term)                         // the index-th output of KDF
    | Sealed(key: Term, counter: nat, plain: Term, ad: Term)          // AEAD
    | Mac(key: Term, data: seq<Term>)                                 // keyed hash of a message

  /** crypto_x25519 */
  function DH(secret: nat, point: Term): Term {
    match point
    case Pub(other) => if secret <= other then Shared(secret, other) else Shared(other, secret)
    case _ => Raised(secret, point)
  }

  lemma DHSymmetric(a: nat, b: nat)
    ensures DH(a, Pub(b)) == DH(b, Pub(a))
  {}

  /** wg_aead_decrypt: the plaintext, if the key, counter and associated data are those of the seal */
  function Open(key: Term, counter: nat, cipher: Term, ad: Term): (r: Option<Term>)
    ensures r.Some? <==> cipher == Sealed(key, counter, if cipher.Sealed? then cipher.plain else Empty, ad)
  {
    if cipher.Sealed? && cipher.key == key && cipher.counter == counter && cipher.ad == ad
    then Some(cipher.plain) else None
  }

  // Messages.

  datatype Init = Init(sender: nat, ephemeral: Term, encStatic: Term, encTimestamp: Term, mac1: Term)

  datatype Response = Response(sender: nat, receiver: nat, ephemeral: Term, encNothing: Term, mac1: Term)

  /** wg_compute_mac1 */
  function Mac1(peerPublic: Term, fields: seq<Term>): Term {
    Mac(Hash(Label("mac1----"), peerPublic), fields)
  }

  function InitMac(peerPublic: Term, m: Init): Term {
    Mac1(peerPublic, [Num(m.sender), m.ephemeral, m.encStatic, m.encTimestamp])
  }

  function ResponseMac(peerPublic: Term, m: Response): Term {
    Mac1(peerPublic, [Num(m.sender), Num(m.receiver), m.ephemeral, m.encNothing])
  }

  // The symmetric state and the tokens of the pattern.

  datatype Symmetric = Symmetric(hash: Term, ck: Term)

  function MixHash(s: Symmetric, data: Term): Symmetric { s.(hash := Hash(s.hash, data)) }

  /** A token that mixes into the chaining key alone (KDF1) */
  function MixKey(s: Symmetric, input: Term): Symmetric { s.(ck := Kdf(1, s.ck, input)) }

  /** Token e: the ephemeral goes into the hash and into the chaining key. */
  function TokenE(s: Symmetric, ephemeral: Term): Symmetric { MixKey(MixHash(s, ephemeral), ephemeral) }

  /** Token psk: KDF3 */
  function TokenPsk(s: Symmetric, psk: Term): Symmetric {
    MixHash(s.(ck := Kdf(1, s.ck, psk)), Kdf(2, s.ck, psk))
  }

  /** wg_handshake_init_state */
  function Start(responderPublic: Term): Symmetric {
    var ck := Hash(Label("Noise_IKpsk2_25519_ChaChaPoly_BLAKE2s"), Empty);
    MixHash(Symmetric(Hash(ck, Label("WireGuard v1 zx2c4 Jason@zx2c4.com")), ck), responderPublic)
  }

  // First message (section 5.4.2 of the WireGuard whitepaper).

  /** Both sides' state before the encrypted static: es is the shared secret of that token. */
  function AfterES(responderPublic: Term, ephemeral: Term, es: Term): Symmetric {
    MixKey(TokenE(Start(responderPublic), ephemeral), es)
  }

  function KeyES(responderPublic: Term, ephemeral: Term, es: Term): Term {
    Kdf(2, TokenE(Start(responderPublic), ephemeral).ck, es)
  }

  /** Both sides' state after the first message */
  function AfterInit(responderPublic: Term, m: Init, es: Term, ss: Term): Symmetric {
    MixHash(MixKey(MixHash(AfterES(responderPublic, m.ephemeral, es), m.encStatic), ss), m.encTimestamp)
  }

  /** What an initiator sends, with its private keys, the peer, an index and a timestamp */
  function InitMessage(secret: nat, responderPublic: Term, ephemeral: nat, index: nat, stamp: nat): Init {
    var es := DH(ephemeral, responderPublic);
    var s := AfterES(responderPublic, Pub(ephemeral), es);
    var encStatic := Sealed(KeyES(responderPublic, Pub(ephemeral), es), 0, Pub(secret), s.hash);
    var key := Kdf(2, s.ck, DH(secret, responderPublic));
    var encTimestamp := Sealed(key, 0, Num(stamp), Hash(s.hash, encStatic));
    var m := Init(index, Pub(ephemeral), encStatic, encTimestamp, Empty);
    m.(mac1 := InitMac(responderPublic, m))
  }

  function InitState(secret: nat, responderPublic: Term, ephemeral: nat, index: nat, stamp: nat): Symmetric {
    AfterInit(responderPublic, InitMessage(secret, responderPublic, ephemeral, index, stamp),
              DH(ephemeral, responderPublic), DH(secret, responderPublic))
  }

  // Second message (section 5.4.3).

  /** State before the empty payload: ee and se are the shared secrets of those tokens. */
  function AfterPsk(s: Symmetric, ephemeral: Term, ee: Term, se: Term, psk: Term): Symmetric {
    TokenPsk(MixKey(MixKey(TokenE(s, ephemeral), ee), se), psk)
  }

  function KeyPsk(s: Symmetric, ephemeral: Term, ee: Term, se: Term, psk: Term): Term {
    Kdf(3, MixKey(MixKey(TokenE(s, ephemeral), ee), se).ck, psk)
  }

  /** Transport keys (section 5.4.5): the two outputs of KDF2 of the chaining key */
  datatype Keys = Keys(sending: Term, receiving: Term)

  function InitiatorKeys(s: Symmetric): Keys { Keys(Kdf(1, s.ck, Empty), Kdf(2, s.ck, Empty)) }

  function ResponderKeys(s: Symmetric): Keys { Keys(Kdf(2, s.ck, Empty), Kdf(1, s.ck, Empty)) }

  datatype Accepted = Accepted(peerStatic: Term, response: Response, outcome: Symmetric)

  /** What a responder does with a first message */
  function Respond(secret: nat, psk: Term, m: Init, ephemeral: nat, index: nat): Option<Accepted> {
    if m.mac1 != InitMac(Pub(secret), m) then None
    else
      var es := DH(secret, m.ephemeral);
      var s := AfterES(Pub(secret), m.ephemeral, es);
      match Open(KeyES(Pub(secret), m.ephemeral, es), 0, m.encStatic, s.hash)
      case None => None
      case Some(peer) =>
        var ss := DH(secret, peer);
        match Open(Kdf(2, s.ck, ss), 0, m.encTimestamp, Hash(s.hash, m.encStatic))
        case None => None
        case Some(_) =>
          var t := AfterInit(Pub(secret), m, es, ss);
          var ee, se := DH(ephemeral, m.ephemeral), DH(ephemeral, peer);
          var u := AfterPsk(t, Pub(ephemeral), ee, se, psk);
          var nothing := Sealed(KeyPsk(t, Pub(ephemeral), ee, se, psk), 0, Empty, u.hash);
          var r := Response(index, m.sender, Pub(ephemeral), nothing, Empty);
          Some(Accepted(peer, r.(mac1 := ResponseMac(peer, r)), MixHash(u, nothing)))
  }

  /** What the initiator does with a response: its state afterwards, and whether it accepts */
  function Finish(secret: nat, psk: Term, ephemeral: nat, s: Symmetric, r: Response): (Symmetric, bool) {
    var ee, se := DH(ephemeral, r.ephemeral), DH(secret, r.ephemeral);
    var u := AfterPsk(s, r.ephemeral, ee, se, psk);
    if Open(KeyPsk(s, r.ephemeral, ee, se, psk), 0, r.encNothing, u.hash).Some?
    then (MixHash(u, r.encNothing), true)
    else (u, false)
  }

  // Theorems.

  /** An unaltered first message is accepted by its addressee, who learns the initiator's static key. */
  lemma InitAccepted(i: nat, r: nat, ei: nat, ix: nat, stamp: nat, psk: Term, er: nat, rx: nat)
    ensures var m := InitMessage(i, Pub(r), ei, ix, stamp);
            var a := Respond(r, psk, m, er, rx);
            a.Some? && a.value.peerStatic == Pub(i) && a.value.response.receiver == ix
  {
    DHSymmetric(ei, r);
    DHSymmetric(i, r);
  }

  /**
   Messages exchanged unchanged: the initiator accepts exactly when both sides
   hold the same preshared key, and then the two ends have the same hash and
   chaining key and crosswise equal transport keys.
   */
  lemma Exchange(i: nat, r: nat, ei: nat, er: nat, ix: nat, rx: nat, stamp: nat, pskI: Term, pskR: Term)
    ensures var m := InitMessage(i, Pub(r), ei, ix, stamp);
            var a := Respond(r, pskR, m, er, rx);
            var (s, ok) := Finish(i, pskI, ei, InitState(i, Pub(r), ei, ix, stamp), a.value.response);
            && a.Some?
            && (ok <==> pskI == pskR)
            && (ok ==> s == a.value.outcome
                       && InitiatorKeys(s).sending == ResponderKeys(a.value.outcome).receiving
                       && InitiatorKeys(s).receiving == ResponderKeys(a.value.outcome).sending)
  {
    InitAccepted(i, r, ei, ix, stamp, pskR, er, rx);
    DHSymmetric(ei, r);
    DHSymmetric(i, r);
    DHSymmetric(er, ei);
    DHSymmetric(er, i);
  }

  /**
   If the initiator accepts a response whose empty payload was sealed by some
   responder run, the two runs agree: on the responder's and the initiator's
   identity, on both ephemerals, on the preshared key and on every encrypted
   field of the first message; their hashes and chaining keys are equal.
   Nothing is assumed about the message the responder answered or about the
   other fields of the response.
   */
  lemma Agreement(i: nat, peer: Term, ei: nat, ix: nat, stamp: nat, pskI: Term, resp: Response,
                  r: nat, pskR: Term, m: Init, er: nat, rx: nat)
    requires Respond(r, pskR, m, er, rx).Some?
    requires resp.encNothing == Respond(r, pskR, m, er, rx).value.response.encNothing
    requires Finish(i, pskI, ei, InitState(i, peer, ei, ix, stamp), resp).1
    ensures peer == Pub(r) && pskI == pskR && resp.ephemeral == Pub(er)
    ensures var sent := InitMessage(i, peer, ei, ix, stamp);
            m.ephemeral == sent.ephemeral && m.encStatic == sent.encStatic && m.encTimestamp == sent.encTimestamp
    ensures var a := Respond(r, pskR, m, er, rx).value;
            a.peerStatic == Pub(i) && Finish(i, pskI, ei, InitState(i, peer, ei, ix, stamp), resp).0 == a.outcome
  {
    DHSymmetric(ei, r);
    DHSymmetric(i, r);
    DHSymmetric(er, ei);
    DHSymmetric(er, i);
  }

  /** How many times something was mixed into a hash */
  function Depth(t: Term): nat {
    if t.Hash? then 1 + Depth(t.left) else 0
  }

  /** The initiator's state after processing a series of responses */
  function AfterAll(secret: nat, psk: Term, ephemeral: nat, s: Symmetric, rs: seq<Response>): Symmetric
    decreases |rs|
  {
    if rs == [] then s
    else Finish(secret, psk, ephemeral, AfterAll(secret, psk, ephemeral, s, rs[..|rs| - 1]), rs[|rs| - 1]).0
  }

  lemma {:induction false} Deeper(secret: nat, psk: Term, ephemeral: nat, s: Symmetric, rs: seq<Response>)
    ensures Depth(AfterAll(secret, psk, ephemeral, s, rs).hash) >= Depth(s.hash) + 2*|rs|
    decreases |rs|
  {
    if rs != [] {
      var t := AfterAll(secret, psk, ephemeral, s, rs[..|rs| - 1]);
      Deeper(secret, psk, ephemeral, s, rs[..|rs| - 1]);
      FinishDepth(secret, psk, ephemeral, t, rs[|rs| - 1]);
    }
  }

  /**
   A response that fails to open still advances the pending state.  So the
   genuine response is accepted exactly when it is the first one processed.
   */
  lemma FirstResponseOnly(i: nat, r: nat, ei: nat, er: nat, ix: nat, rx: nat, stamp: nat, psk: Term,
                          rs: seq<Response>)
    ensures var a := Respond(r, psk, InitMessage(i, Pub(r), ei, ix, stamp), er, rx);
            && a.Some?
            && var t := AfterAll(i, psk, ei, InitState(i, Pub(r), ei, ix, stamp), rs);
               Finish(i, psk, ei, t, a.value.response).1 <==> rs == []
  {
    Exchange(i, r, ei, er, ix, rx, stamp, psk, psk);
    hide Finish, Respond, InitMessage, InitState, Depth;
    var s := InitState(i, Pub(r), ei, ix, stamp);
    var a := Respond(r, psk, InitMessage(i, Pub(r), ei, ix, stamp), er, rx).value;
    var t := AfterAll(i, psk, ei, s, rs);
    Deeper(i, psk, ei, s, rs);
    GenuineDepth(i, r, ei, er, ix, rx, stamp, psk);
    FinishDepth(i, psk, ei, t, a.response);
  }

  lemma GenuineDepth(i: nat, r: nat, ei: nat, er: nat, ix: nat, rx: nat, stamp: nat, psk: Term)
    ensures var a := Respond(r, psk, InitMessage(i, Pub(r), ei, ix, stamp), er, rx);
            a.Some? && Depth(a.value.response.encNothing.ad) == Depth(InitState(i, Pub(r), ei, ix, stamp).hash) + 2
  {
    DHSymmetric(ei, r);
    DHSymmetric(i, r);
  }

  lemma FinishDepth(secret: nat, psk: Term, ephemeral: nat, s: Symmetric, r: Response)
    ensures Depth(Finish(secret, psk, ephemeral, s, r).0.hash) >= Depth(s.hash) + 2
    ensures Finish(secret, psk, ephemeral, s, r).1
            ==> r.encNothing.Sealed? && Depth(r.encNothing.ad) == Depth(s.hash) + 2
  {
    var u := AfterPsk(s, r.ephemeral, DH(ephemeral, r.ephemeral), DH(secret, r.ephemeral), psk);
    assert Depth(u.hash) == 1 + Depth(u.hash.left) == 2 + Depth(s.hash);
  }
}
