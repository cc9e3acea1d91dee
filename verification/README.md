# Verified model of wg-nx

wg-nx is a userland WireGuard. This project models the parts of it whose correctness is not
visible from one function at a time, and proves what they are for:

- **Limb arithmetic.** The 10-limb field of Curve25519, byte conversion and the X25519 ladder, and two
  Poly1305 implementations (5 x 26 bits and 4 x 32 bits). Words have their C widths as types, so every sum and
  product is proved free of overflow; results are stated as residues and as the formulas of RFC 7748 and RFC 8439, and
  a ladder step as the doubling and the differential addition of the curve.
- **Fast forms against simple forms.** NEON row vectors against scalar rounds for ChaCha20 and BLAKE2s, streaming
  against whole messages, the NEON AEAD against Monocypher's, the replay ring against a set of counters. What the
  simple forms are is fixed by laws that do not repeat them and by published examples that are evaluated in the logic.
- **The tunnel.** The Noise IKpsk2 handshake over a free term algebra, and the tunnel as a state machine whose
  steps are the critical sections of the receive thread, the keepalive thread, `wg_connect`/`wg_rekey` and the
  senders. Invariants, nonce uniqueness, the verdict on every received packet and what a call returns are theorems
  about every run; the imperative code refines the machine.
- **Threads.** The receive slots and the wake-up protocol as an interleaving of four parties, with `stop()` and
  `start()` as often as one likes, and the packet ring between the relay and the receive thread.

Clocks, random numbers and arriving messages are inputs. A buffer that is updated in place is an array or an
object; shifts, masks and ors of disjoint bit fields are written as division, remainder and sum; xor is defined
bit by bit. Each `modifies` method is proved against a function of the old state, and the theorems are about
those functions.

Modules: `MachineInts`, `Options`, `Modular`, `Bits`, `Bytes`, `Words`, `Rows` are common ground; `WordBits` and
`StateBits` are words and states as bit vectors, which can be evaluated. `FieldLimbs`, `Field25519`, `FieldBytes`,
`Ladder`, `LadderLaws` are Curve25519. `Poly1305Spec`, `PolyLimbs`, `Poly1305Neon`, `Poly1305Mono`,
`Poly1305Agreement` are the authenticator. `Blake2sCompress`, `Blake2s`, `Blake2sBits`, `Blake2sAnswer`, `Hashes`,
`HashLaws`, `ChaCha20`, `ChaChaStream`, `ChaChaBits`, `ChaChaAnswer`, `Mixing`, `Verify16`, `Aead`, `AeadLaws` are the
other primitives. `Noise`, `Transcript` and `Handshake` are the handshake; `Tunnel`, `TunnelInvariants`, `Nonces`,
`NonceRuns`, `WipedRun`, `Calls`, `EmptyCall`, `FailedCall`, `Deliveries`, `Rotation`, `LateRun`, `Limits`, `Forged`,
`EndToEnd`, `Device` the tunnel; `Replay`, `ReplayRuns` the replay window; `RelayMachine`, `Relay`, `RelayRing`,
`RingBytes` the threads.

## Where the code does not do what it looks like

Each of these is kept as the code has it, with a lemma that shows it and one that says exactly when.

- The replay ring has 128 words and no spare one. A counter in the word exactly 128 behind the high-water word can be
  accepted twice, and then blocks a fresh counter. `ReplayRuns.AliasedReplay` shows both; `ReplayRuns.AcceptedAgain`
  and `ReplayRuns.FreshRefused` say exactly when, and `ReplayRuns.ExactAnswer` gives every verdict of every run.
- A response that fails to open has already changed the pending handshake, so on one handshake state the genuine
  response is accepted exactly when it is the first one processed (`Noise.FirstResponseOnly`). `wg_connect` and
  `wg_rekey` make a new state for every attempt and process at most one response on it, and the table peers' own
  handshakes, whose state is kept, are never completed (next item); so no run processes a second response on one state.
- The receive thread completes a table peer's own handshake only if `connected && !session.valid`, which no reachable
  state satisfies (`TunnelInvariants.ResponsesIgnored`).
- `wg_connect` and `wg_rekey` carry `err` through their loop, and `wg_handshake_init` sets it to `WG_OK` at the start of
  every attempt. A refused first message in `wg_connect`, and a cookie in `wg_rekey`, go on without resetting it.
  `EmptyCall.ReturnsForNothing` shows, for every tunnel, calls of both that return success without any handshake;
  `Calls.ConnectedWithoutKeys` says exactly when: all eighteen attempts are used and the last one ends in that way.
- A call that returns success sends a keepalive on the legacy session, whose keys it may not have got: then, or when
  `wg_connect` has answered a table peer, or when the keys were wiped meanwhile (`Calls.WhyWiped`). The legacy session
  then has the all-zero key, and a nonce can repeat. `WipedRun.WipedReuse` shows a run; `NonceRuns.SharedNonce` says
  which packets share a nonce and `NonceRuns.RepeatsIff` in which runs there are any.
- `wg_handshake_response` moves the old session aside, but under an index that the new session keeps as its old one,
  and that one is looked up first. So after `wg_connect` or `wg_rekey` has completed a handshake over a valid session,
  no index selects the session that was moved aside (`Rotation.PreviousUnheard`), and in every run no payload under the
  old keys is delivered the moment after (`Rotation.LateLost`; `LateRun.Late` shows such a run). When the tunnel answers
  a handshake instead, the old index still selects the old session exactly if nothing else has that index
  (`Rotation.OldIndexSelects`, `Rotation.OldLegacySelects`), and every payload for it is delivered as before.
- A transport packet without payload is taken as a keepalive before its tag is looked at. `Forged.ForgedKeepalive`
  shows it; `Forged.ForgedEffect` says exactly when a packet that does not open changes the tunnel.
- `stop()` drains the queue while the receive thread may be inside `handleIncomingPacket`. `RelayMachine.Stranded` shows
  the slot that it then pushes; `RelayMachine.StopStrands` says exactly when this can happen, and
  `RelayMachine.StrandedUntil` until when: the next `stop()`, as in the destructor, releases the slot, or the loop takes
  it after the next `start()`.
- `start()` begins with new wake sockets. If a slot was stranded, the new loop sleeps beside it until poll times out
  (`RelayMachine.Oversleeps`); `RelayMachine.StartSleeps` says exactly when.
- `wg_relay_input` limits uncommitted packets, not the reader's lag, although its comment says the producer blocks when
  the ring is full. A committed packet can be lost (`RelayRing.Lapped`, exactly when: `RelayRing.PollExact`), and a
  packet can be returned before it is committed (`RelayRing.UncommittedTaken`, exactly when: `RelayRing.Uncommitted`).
- The comment in `wg_socket_recv` says that the reader never sees partial writes. `RingBytes.Torn` shows a packet made of
  bytes of two; `RingBytes.Intact` says that a packet comes whole while it is among the last 256 and not being written
  over, and `RingBytes.Overtaken` where each byte comes from otherwise.
- `wg_socket_recv` compares the ring's 32-bit sequence numbers with `>=`. Once the published one has wrapped, the reader
  finds nothing (`RelayRing.StallsIff`); a reader that keeps up gets 2^32 - 1 packets and then no more
  (`RelayRing.InStepReads`, `RelayRing.Deaf`), and none ever gets 2^32 (`RelayRing.Finite`).

## Model

| member | source | states |
|---|---|---|
| `FieldLimbs.RowsVal` | library/crypto/monocypher.c:1225-1273 | the ten sums of products that fe_mul forms have a value congruent to the product of the operands' values modulo 2^255 - 19 |
| `Field25519.FeCarry` | library/crypto/monocypher.c:1044-1120 | carrying keeps the residue, overflows nowhere, and leaves limbs below 1.1 * 2^25 and 1.1 * 2^24, for every t0 whose first rounding sum stays within 64 bits (the documented bound 2^63 is 2^25 too large) and t1..t9 up to 2^62 |
| `Field25519.MulRows` | library/crypto/monocypher.c:1225-1271 | the products with their factors 19 and 2 are the rows of the schoolbook product, within 64 bits |
| `Field25519.SqRows` | library/crypto/monocypher.c:1281-1323 | fe_sq's halved set of products is the product of an element with itself |
| `Field25519.FeMul` | library/crypto/monocypher.c:1225-1273 | the result is tight and its residue is the product of the residues |
| `Field25519.FeSq` | library/crypto/monocypher.c:1281-1325 | the result is tight and its residue is the square |
| `Field25519.FeMulSmall` | library/crypto/monocypher.c:1205-1216 | the result is tight and its residue is the product with the small constant |
| `Field25519.FeAdd` | library/crypto/monocypher.c:974-974 | residues add, without overflow, in place or not |
| `Field25519.FeSub` | library/crypto/monocypher.c:975-975 | residues subtract, without overflow, in place or not |
| `Field25519.FeCswap` | library/crypto/monocypher.c:977-985 | the two elements are exchanged exactly when the bit is set |
| `FieldBytes.FeFromBytes` | library/crypto/monocypher.c:1128-1147 | for all 32 bytes, a tight element whose residue is the little-endian number without its top bit |
| `FieldBytes.FeToBytes` | library/crypto/monocypher.c:1161-1196 | the bytes are the unique number below 2^255 - 19 with the element's residue |
| `FieldBytes.Sign` | library/crypto/monocypher.c:1165-1177 | the chain of shifts ends in -1 exactly for a negative value, otherwise in 0 |
| `FieldBytes.Normalize` | library/crypto/monocypher.c:1128-1196 | decoding and encoding gives the number without its top bit, reduced modulo 2^255 - 19, for all 32-byte strings |
| `FieldBytes.AlreadyCanonical` | library/crypto/monocypher.c:1128-1196 | a string below 2^255 - 19 comes back unchanged |
| `Ladder.ScalarBits` | library/crypto/monocypher.c:1478-1482 | scalar_bit reads the bits of the little-endian scalar |
| `Ladder.DoublingConstant` | library/crypto/monocypher.c:1523-1529 | BB + 121666 E equals AA + 121665 E in the field |
| `Ladder.LadderStep` | library/crypto/monocypher.c:1511-1529 | the eighteen field operations are one step of the ladder of section 5 of RFC 7748, that is the doubling and the addition of `LadderLaws.Law`, with every operand inside its bounds |
| `Ladder.DeferredSwap` | library/crypto/monocypher.c:1502-1508 | swapping by the xor of neighbouring bits equals swapping before and after each step |
| `Ladder.LadderLoop` | library/crypto/monocypher.c:1501-1534 | for every scalar and number of bits, the four elements have the residues of the reference ladder |
| `Ladder.Scalarmult` | library/crypto/monocypher.c:1487-1534 | before the inversion, (x2 : z2) is what the ladder of those steps computes, for every scalar and every u-coordinate |
| `LadderLaws.Law` | library/crypto/monocypher.c:1511-1529 | for all coordinates, a step is ((x^2 - z^2)^2 : 4xz(x^2 + 486662xz + z^2)), the double of the first point on the curve, and (4(x2x3 - z2z3)^2 : 4u(x2z3 - z2x3)^2), the sum of both for points whose difference has coordinate u, all modulo 2^255 - 19 |
| `LadderLaws.Zero` | library/crypto/monocypher.c:1487-1534 | for every number of bits the scalar zero gives the point at infinity (1 : 0) |
| `LadderLaws.One` | library/crypto/monocypher.c:1487-1534 | for every u and every number of bits the scalar one gives a point with x = u z |
| `Poly1305Neon.Multiply` | src/wg_poly1305_neon.c:75-145 | (acc + block) * r modulo 2^130 - 5, with carried limbs and no overflow |
| `Poly1305Neon.Subtract` | src/wg_poly1305_neon.c:257-274 | the masked subtraction fires exactly when the value is at least 2^130 - 5 |
| `Poly1305Neon.Finish` | src/wg_poly1305_neon.c:244-288 | full reduction, then the sum with s modulo 2^128 |
| `Poly1305Neon.Poly1305.constructor` | src/wg_poly1305_neon.c:25-59 | the clamped key in 26-bit limbs and an empty message |
| `Poly1305Neon.Poly1305.Block` | src/wg_poly1305_neon.c:63-198 | one block is one step of the polynomial, and the limb bounds hold again |
| `Poly1305Neon.Poly1305.Update` | src/wg_poly1305_neon.c:210-235 | the context stands for the old message followed by the new bytes, for every split |
| `Poly1305Neon.Poly1305.Final` | src/wg_poly1305_neon.c:237-291 | the tag of section 2.5 of RFC 8439 for everything given to update |
| `Poly1305Neon.Tag` | src/wg_poly1305_neon.c:293-298 | the tag of section 2.5 of RFC 8439, for every key and message |
| `Poly1305Mono.Multiply` | library/crypto/monocypher.c:314-342 | the 32-bit rows with their five-quarter factors equal the product modulo 2^130 - 5 |
| `Poly1305Mono.Reduce` | library/crypto/monocypher.c:344-357 | the partial reduction keeps the residue and restores h4 <= 4 |
| `Poly1305Mono.Poly1305.constructor` | library/crypto/monocypher.c:366-375 | the masked key words are the clamped r |
| `Poly1305Mono.Poly1305.Block` | library/crypto/monocypher.c:310-364 | one block is one step of the polynomial, within the bounds the code documents |
| `Poly1305Mono.Poly1305.Update` | library/crypto/monocypher.c:377-411 | the context stands for the old message followed by the new bytes |
| `Poly1305Mono.Poly1305.Final` | library/crypto/monocypher.c:413-440 | the tag of section 2.5 of RFC 8439 |
| `Poly1305Mono.Tag` | library/crypto/monocypher.c:442-449 | the tag of section 2.5 of RFC 8439, for every key and message |
| `Poly1305Agreement.BothTags` | library/crypto/monocypher.c:303-449 | both implementations return the same sixteen bytes for every key and message |
| `Rows.PutDiagonal` | src/blake2s_neon.c:92-102 | a quarter step on a diagonal is one on a column of the lane-rotated rows |
| `Words.SwapIsRotation` | src/blake2s_neon.c:49-49 | reversing half words is rotation by sixteen in either direction |
| `Blake2sCompress.GNeon` | src/blake2s_neon.c:51-61 | each lane of the row operation is the mixing function G of section 3.1 of RFC 7693 on one column, as `Mixing` and `Blake2sAnswer` fix it |
| `Blake2sCompress.ColumnsFlat` | library/crypto/blake2s.c:72-75 | the four column steps on sixteen words are G on the four columns of the rows |
| `Blake2sCompress.DiagonalsFlat` | library/crypto/blake2s.c:76-79 | the four diagonal steps on sixteen words are G on the columns of the rotated rows |
| `Blake2sCompress.RoundsNeon` | src/blake2s_neon.c:85-103 | for any list of schedules, the row loop computes the scalar rounds |
| `Blake2sCompress.CompressNeon` | src/blake2s_neon.c:68-112 | the compression function of section 3.2 of RFC 7693, the one whose value on a full block is `Blake2sAnswer.Compression` |
| `Blake2sCompress.CompressScalar` | library/crypto/blake2s.c:41-98 | the same compression function |
| `Mixing.GBijective` | library/crypto/blake2s.c:60-69 | for given message words G is a bijection of four words, with its inverse |
| `Mixing.GInjective` | library/crypto/blake2s.c:60-69 | for given words, different pairs of message words give different results |
| `Blake2sBits.RoundValue` | library/crypto/blake2s.c:71-80 | a round on numbers is the round on bit vectors, with the built-in xor, sum and rotation, for every vector and message |
| `Blake2sAnswer.Abc` | library/crypto/blake2s.c:41-98 | the working vector of "abc" after the first round is the one that appendix B of RFC 7693 prints |
| `Blake2sAnswer.Compression` | library/crypto/blake2s.c:41-98 | on the block of the bytes 0 to 63 the compression function gives the words of the published digest |
| `Words.Carry` | library/crypto/blake2s.c:140-142 | add with carry on the two counter words counts modulo 2^64 |
| `Blake2s.State.constructor` | library/crypto/blake2s.c:108-114 | the parameter block for an unkeyed hash and no data |
| `Blake2s.State.Key` | library/crypto/blake2s.c:116-126 | the keyed parameter block, and the padded key as first data |
| `Blake2s.State.Update` | library/crypto/blake2s.c:128-161 | the state stands for the old data followed by the input; all but the last block is compressed and the counter is the bytes compressed modulo 2^64 |
| `Blake2s.State.Final` | library/crypto/blake2s.c:163-175 | the digest of section 3.3 of RFC 7693 of all data, cut to the output length |
| `Blake2s.StoredByte` | library/crypto/blake2s.c:172-174 | the output loop writes the bytes of the little-endian words |
| `Blake2s.Blake2s` | library/crypto/blake2s.c:177-187 | the hash of a message, keyed or not, on either compression path |
| `Blake2s.HashChunks` | library/crypto/blake2s.c:108-187 | any split of a message into updates gives the hash of the whole message |
| `Blake2sAnswer.Answer` | library/crypto/blake2s.c:177-187 | the digest of the bytes 0 to 63 is the one of the BLAKE2 reference vectors |
| `Blake2sBits.OneBlock` | library/crypto/blake2s.c:163-187 | a message of one block, without a key, is one compression, with its length as offset and the final flag set |
| `HashLaws.ParamWord` | library/crypto/blake2s.c:108-126 | for all lengths the first state word differs from the constant by 0x0101kknn, and no other word does |
| `HashLaws.KeyedEmpty` | library/crypto/blake2s.c:116-126 | a key alone is the padded key as last block, at offset 64 |
| `HashLaws.KeyedBlock` | library/crypto/blake2s.c:116-126 | with one block of data the padded key is compressed first and counts as 64 bytes |
| `Hashes.Hash2` | src/wg_crypto.c:11-17 | the hash of the concatenation |
| `Hashes.MixHash` | src/wg_crypto.c:103-105 | the hash of the old hash and the data, in the same buffer |
| `Hashes.HmacCode` | src/wg_crypto.c:23-50 | HMAC of RFC 2104 under the first 64 bytes of the key |
| `Hashes.Kdf1` | src/wg_crypto.c:52-60 | the first output of HKDF (RFC 5869), also into the key's buffer |
| `Hashes.Kdf2` | src/wg_crypto.c:62-77 | the same first output and the second one, whatever the buffers share |
| `Hashes.Kdf3` | src/wg_crypto.c:79-101 | the first, second and third output, each intact unless a later one shares its buffer |
| `HashLaws.HmacIs` | src/wg_crypto.c:23-50 | for keys up to a block, H(K ^ opad, H(K ^ ipad, text)) of RFC 2104 with the zero-extended key |
| `HashLaws.KdfFirst` | src/wg_crypto.c:52-60 | T(1) of RFC 5869 under the key extracted from salt and input |
| `HashLaws.KdfNext` | src/wg_crypto.c:62-101 | each further output is the HMAC of the one before and its number |
| `ChaCha20.QuarterNeon` | src/wg_chacha20_neon.c:41-58 | each lane of the row operation is the quarter round of section 2.1 of RFC 8439 on one column |
| `ChaCha20.RoundsNeon` | src/wg_chacha20_neon.c:71-83 | for any number of double rounds, the row loop computes the column and diagonal rounds |
| `ChaCha20.BlockNeon` | src/wg_chacha20_neon.c:60-94 | the block function of section 2.3 of RFC 8439 on words |
| `ChaCha20.RoundsScalar` | library/crypto/monocypher.c:178-200 | the ten double rounds on sixteen temporaries |
| `Mixing.QuarterBijective` | library/crypto/monocypher.c:172-176 | the quarter round is a bijection of four words, with its inverse |
| `ChaChaAnswer.Answer` | src/wg_chacha20_neon.c:60-94 | for the key, nonce and counter of section 2.3.2 of RFC 8439 the block function gives the state printed there |
| `ChaChaStream.XorWord` | library/crypto/monocypher.c:236-241 | xor of a little-endian word is xor of its bytes |
| `ChaChaStream.XorNeon` | src/wg_chacha20_neon.c:125-178 | byte-wise xor with the key stream for every length, in place or not, and nothing else changes |
| `ChaChaStream.StreamNeon` | src/wg_chacha20_neon.c:96-123 | one block of key stream |
| `ChaChaStream.Tick` | library/crypto/monocypher.c:249-252 | the state for the next value of the 64-bit block counter |
| `ChaChaStream.XorDjb` | library/crypto/monocypher.c:219-276 | byte-wise xor of a text with the stream of the 64-bit block counter, or that stream itself if there is no text, for every length, in place or not; the returned counter is the first unused one modulo 2^64 |
| `ChaChaStream.XorStreamTwice` | src/wg_chacha20_neon.c:125-178 | encrypting twice gives the text back |
| `ChaChaStream.XorFromTwice` | library/crypto/monocypher.c:219-276 | so it does with the 64-bit counter |
| `ChaChaStream.SameStream` | library/crypto/monocypher.c:278-285 | the two block counters give the same stream for every text over which the 32-bit one does not wrap |
| `Verify16.NotZero` | library/crypto/monocypher.c:144-150 | 0 for zero and -1 for everything else |
| `Verify16.Verify` | library/crypto/monocypher.c:152-159 | 0 exactly when the sixteen bytes agree, otherwise -1 |
| `Aead.MacNeon` | src/wg_chacha20_neon.c:224-239 | the tag over associated data, ciphertext, paddings and lengths |
| `Aead.LockAuth` | library/crypto/monocypher.c:2858-2873 | the same tag from Monocypher's calls |
| `AeadLaws.OneStream` | src/wg_chacha20_neon.c:210-244 | over both counters, the one-time key is the first half of block zero of one key stream and the text starts at its block one |
| `AeadLaws.NonceHolds` | src/wg_chacha20_neon.c:184-197 | the nonce is four zero bytes and the counter, so it determines the counter |
| `AeadLaws.MacDataHolds` | src/wg_chacha20_neon.c:224-239 | where associated data, ciphertext, zeros and the two lengths are in what is authenticated |
| `AeadLaws.MacDataInjective` | src/wg_chacha20_neon.c:224-239 | no two pairs of associated data and ciphertext are authenticated alike |
| `AeadLaws.AccPolynomial` | src/wg_poly1305_neon.c:63-198 | for every message the accumulator is c1 r^q + ... + cq r modulo 2^130 - 5, where the coefficients are the blocks with their end marks |
| `AeadLaws.ClampBits` | src/wg_poly1305_neon.c:25-59 | bit for bit: r is the first half of the key without the bits that RFC 8439 clears |
| `Aead.EncryptNeon` | src/wg_chacha20_neon.c:210-244 | the sealed form of section 2.8 of RFC 8439, as `AeadLaws` fixes it, also when the plaintext is in the output buffer |
| `Aead.DecryptNeon` | src/wg_chacha20_neon.c:246-292 | 0 exactly for an authentic ciphertext, and then the plaintext, also in place; otherwise -1 and nothing written |
| `Aead.EncryptMono` | src/wg_crypto.c:116-133 | the sealed form over the stream of the 64-bit block counter, for every length |
| `Aead.DecryptMono` | library/crypto/monocypher.c:2912-2929 | 0 exactly for an authentic ciphertext, and then the plaintext; otherwise -1 and nothing written |
| `Aead.Encrypt` | src/wg_crypto.c:111-134 | the sealed form of the branch taken, for every length |
| `Aead.Decrypt` | src/wg_crypto.c:136-163 | 0 exactly for an authentic ciphertext on either branch, and then the plaintext of that branch; otherwise -1 and nothing written |
| `Aead.SealedUnique` | src/wg_chacha20_neon.c:210-244 | key, nonce, associated data and plaintext determine the sealed bytes |
| `Aead.OpensOnlySealed` | src/wg_chacha20_neon.c:246-292 | what opens to a plaintext is exactly what sealing that plaintext makes |
| `Aead.SameCrypted` | library/crypto/monocypher.c:278-285 | the two streams agree on every text up to the limit of RFC 8439 |
| `Aead.SealThenOpen` | src/wg_crypto.c:111-163 | in one buffer, sealing and opening returns 0, and the original plaintext if both take the same branch, or whichever they take up to the limit of RFC 8439 |
| `Aead.BothPaths` | src/wg_crypto.c:111-134 | up to that limit the NEON and the Monocypher branch write identical bytes |
| `Replay.ReplayCounter.Validate` | src/wg_counter.c:6-36 | verdict, high-water mark and all 128 words after one call, as a function of those before |
| `ReplayRuns.StepRefines` | src/wg_counter.c:6-36 | the ring keeps exactly the marks of the abstract window, through partial and full clearing |
| `ReplayRuns.NoReplay` | src/wg_counter.c:17-35 | over every sequence of calls, an accepted counter is rejected again while its word is among the last 128 |
| `ReplayRuns.TooOld` | src/wg_counter.c:10-12 | in every run, a counter at or below the high-water mark minus 8192 is rejected |
| `ReplayRuns.ExactWindow` | src/wg_counter.c:10-35 | where no call came from the aliased word, a counter below the limit is accepted exactly when it was not accepted before |
| `ReplayRuns.ExactAnswer` | src/wg_counter.c:6-36 | for every call of every run: accepted exactly when below the limit, at most 8192 behind, and no earlier call was accepted on the bit it maps to |
| `ReplayRuns.AcceptedAgain` | src/wg_counter.c:14-35 | exactly when an accepted counter is accepted again |
| `ReplayRuns.FreshRefused` | src/wg_counter.c:14-35 | a counter within the last 128 words that was not accepted before is rejected exactly when the counter 8192 below it was accepted from the aliased word |
| `ReplayRuns.AliasedReplay` | src/wg_counter.c:14-35 | four calls in which a counter is accepted twice and a fresh one then rejected |
| `Noise.InitAccepted` | src/wg_noise.c:180-256 | an unaltered first message is accepted and yields the initiator's static key |
| `Noise.Exchange` | src/wg_noise.c:66-437 | with unaltered messages the initiator accepts exactly if the preshared keys agree, and then the transport keys are crosswise equal |
| `Noise.Agreement` | src/wg_noise.c:373-437 | accepting an encrypted_nothing of some responder run implies agreement on identities, ephemerals, preshared key, encrypted fields, hash and chaining key |
| `Noise.FirstResponseOnly` | src/wg_noise.c:439-476 | the genuine response is accepted exactly when no other response was processed before it |
| `Transcript.InitSeals` | src/wg_noise.c:66-119 | read off the first message: what is sealed in it, of which secrets each key is made, and over which transcript |
| `Transcript.ResponderMade` | src/wg_noise.c:269-337 | whoever sent the message: both transport keys have the layers nothing, psk, se, ee, er, ss, es, ei over the constant, by the responder's own keys; so do the key of encrypted_nothing and the transcript |
| `Transcript.InitiatorMade` | src/wg_noise.c:387-424 | the same for an initiator that accepts a response, whoever sent it |
| `Transcript.KeysMade` | src/wg_noise.c:66-437 | after an exchange of unaltered messages, the eight inputs of all four transport keys, with the four shared secrets as DH of private keys of the side that has the key |
| `Transcript.MacBinds` | src/wg_noise.c:13-18 | mac1 of two first messages agrees exactly if addressee and all fields before it do |
| `Transcript.ResponseMacBinds` | src/wg_noise.c:13-18 | the same for responses |
| `Handshake.HandshakeState.constructor` | src/wg_noise.c:7-11 | the initial hash and chaining key |
| `Handshake.HandshakeState.WriteInit` | src/wg_noise.c:66-119 | message and state after the in-place token updates are those of the protocol |
| `Handshake.HandshakeState.ReadInit` | src/wg_noise.c:194-256 | the static key of a genuine first message, and the initiator's state |
| `Handshake.HandshakeState.WriteResponse` | src/wg_noise.c:269-314 | response and state of the second message, of which `Transcript.ResponderMade` says what they are made of |
| `Handshake.HandshakeState.ReadResponse` | src/wg_noise.c:387-414 | state and verdict after a response, also a failing one; `Transcript.InitiatorMade` says what an accepted one gives |
| `Handshake.Initiate` | src/wg_noise.c:66-119 | the code of the initiator writes the first message of the protocol and keeps its state |
| `Handshake.Complete` | src/wg_noise.c:373-437 | the code that reads the response does what the protocol does, also for a failing one |
| `Handshake.Answer` | src/wg_noise.c:180-314 | the code of the responder is the protocol's responder |
| `Device.Device.AddPeer` | src/wireguard.c:167-181 | a new last entry of the table, unless it is full |
| `Device.Device.FindPeerByIp` | src/wireguard.c:183-190 | the first configured peer with the address |
| `Device.Device.FindPeerByIndex` | src/wireguard.c:192-202 | the first configured peer with a valid current or previous session of that index |
| `Device.Device.FindPeerByKey` | src/wireguard.c:204-211 | the first configured peer with the key |
| `Device.Device.SendToPeer` | src/wireguard.c:246-256 | one packet under the peer's key and counter, and the counter moves on; the time of the last packet moves only if the socket takes it |
| `Device.Device.SendLegacy` | src/wireguard.c:265-275 | one packet under the legacy key and counter, and the counter moves on |
| `Device.Device.Send` | src/wireguard.c:830-862 | a packet exactly if the session is valid, unexpired, below the message limit and the packet fits; success exactly if the socket takes it |
| `Device.Device.Output` | lwip-relay/src/wg_netif.c:16-62 | a packet on a live session, or a new handshake with its state kept for the response |
| `Device.Device.InitProcess` | src/wg_noise.c:180-371 | rotation and installation for the peer that the message names, or for the legacy session; `Rotation` says what becomes of the old session |
| `Device.Device.HandshakeInit` | src/wg_noise.c:66-122 | first message, new index and the state that the attempt keeps |
| `Device.Device.HandshakeResponse` | src/wg_noise.c:373-437 | rotation and installation, or only the changes of a failing response, and the error returned |
| `Device.Device.Answered` | src/wireguard.c:311-387 | one turn of wg_connect's loop after the first message: what comes back, `err` then, and whether the loop is left |
| `Device.Device.Connect` | src/wireguard.c:299-401 | the whole loop of wg_connect over any eighteen replies: the tunnel afterwards and the value returned are those of the machine's call |
| `Device.Device.Found` | src/wireguard.c:424-472 | one turn of wg_rekey's loop, with what the receive thread has left for it |
| `Device.Device.Rekey` | src/wireguard.c:403-489 | the whole loop of wg_rekey, with the saved index restored on failure |
| `Device.CallIsRun` | src/wireguard.c:299-489 | such a call is a run of the state machine |
| `Device.Device.ReceiveInit` | src/wireguard.c:591-607 | responding, and one keepalive to the first connected peer |
| `Device.Device.ReceiveResponse` | src/wireguard.c:561-585 | a response is copied for wg_rekey while that runs, or matched against the table |
| `Device.Device.PeerResponse` | src/wg_noise.c:439-492 | completion of a table peer's own handshake, or the state a failing response leaves |
| `Device.Device.FindSession` | src/wireguard.c:615-657 | the session that the packet's index selects: the first peer with it, current before previous, then the legacy sessions |
| `Device.OpenPayload` | src/wireguard.c:684-699 | decryption, then the replay ring object, then the session's fields: the session and verdict of the state machine |
| `Device.Device.OnSession` | src/wireguard.c:659-700 | expiry, the empty packet, and the payload with its bookkeeping, store by store |
| `Device.Device.ReceiveTransport` | src/wireguard.c:615-716 | lookup, expiry, decryption, replay ring and bookkeeping together are the machine's transport step, and the result is whether the payload goes to the consumer |
| `Device.Device.Tick` | src/wireguard.c:741-787 | one period of the keepalive thread over all peers and the legacy session |
| `Device.TickIsRun` | src/wireguard.c:741-787 | that period is a run of the state machine |
| `TunnelInvariants.NextInv` | src/wireguard.c:558-787 | every step keeps the peers' flags, the origin of every valid session and the history behind every replay window |
| `TunnelInvariants.ReachablePeers` | src/wireguard.c:743-757 | in every reachable state a table peer is connected exactly when its session is valid, a previous session accompanies a current one, and indices and keys of a session stem from one handshake step |
| `TunnelInvariants.ResponsesIgnored` | src/wireguard.c:561-585 | in every reachable state a response is kept for wg_rekey while that runs, and otherwise changes nothing |
| `TunnelInvariants.OpensMatchingSession` | src/wireguard.c:619-645 | with distinct indices, a packet for a peer's current or previous index is opened with that session's keys and window |
| `TunnelInvariants.NoPayloadTwice` | src/wireguard.c:684-700 | a payload accepted on a session is not accepted again on it while its counter is within the window |
| `Deliveries.NextHears` | src/wireguard.c:615-700 | with fresh ephemerals, every step keeps: no two sessions share a receiving key, and each window has seen exactly the counters that arrived under its key in the whole run, also after rotation |
| `Deliveries.Verdict` | src/wireguard.c:615-700 | in every run, a transport packet that reaches a session with keys is delivered exactly if it is genuine, the session is within its lifetime, and the window accepts its counter after those that arrived under the same key before |
| `Deliveries.AnyOrder` | src/wg_counter.c:6-36 | in full, for packets in any order between any other steps: delivered exactly if below the limit, at most 8192 behind, and no earlier arrival took the bit |
| `Deliveries.DeliveredAgain` | src/wireguard.c:684-700 | a counter delivered under a key is delivered again, wherever the session has been rotated to, exactly where the ring forgets it, and never while its word is among the last 128 |
| `Rotation.TableRotates` | src/wg_noise.c:321-345 | a first message that is answered and names a table peer: a valid session becomes the previous one, and no other peer's sessions change what they receive |
| `Rotation.OldIndexSelects` | src/wg_noise.c:321-328 | then the old index selects the old session exactly if the new index differs and no earlier peer has the old one |
| `Rotation.OldIndexHeard` | src/wireguard.c:615-700 | and every payload for the old index is delivered afterwards exactly if it would have been before |
| `Rotation.LegacyRotates` | src/wg_noise.c:328-345 | for a sender that is not in the table, the same of the legacy session |
| `Rotation.OldLegacySelects` | src/wireguard.c:636-645 | the old index selects the moved legacy session exactly if nothing else has it |
| `Rotation.OldLegacyHeard` | src/wireguard.c:615-700 | and then every payload for it is delivered as before |
| `Rotation.InitiatorRotates` | src/wg_noise.c:416-429 | when the tunnel's own handshake completes, the old session is moved aside under the index that the new one keeps as its old one |
| `Rotation.PreviousUnheard` | src/wireguard.c:636-645 | so no index selects it then |
| `Rotation.LateLost` | src/wireguard.c:636-690 | in every run, no payload that the old keys would have delivered just before is delivered just after, whatever index it carries |
| `LateRun.Late` | src/wireguard.c:403-489 | for every tunnel with a peer, a run of wg_connect and wg_rekey in which that happens to a payload |
| `Limits.SentInTime` | src/wireguard.c:830-862 | in every run, what leaves by wg_send carries a key that a step of the run installed less than 180 seconds before, and a counter below the limit |
| `Limits.Ticked` | src/wireguard.c:741-778 | when the keepalive thread has looked at a peer, its session is less than 540 seconds old, and a peer heard from has been sent to within 10 seconds and within the interval |
| `Limits.LegacyTicked` | src/wireguard.c:782-787 | the same age for the legacy session |
| `Limits.SentFits` | src/wireguard.c:830-862 | with header and tag, what wg_send and the interface's output send is at most 2048 bytes long |
| `Limits.TableBounded` | src/wireguard.c:167-181 | in every run the table has at most 64 peers |
| `Limits.DeliveryMarks` | src/wireguard.c:697-700 | a delivered payload sets the time heard, the next counter and the peer's flag, on the session that it selects |
| `Limits.KeepaliveMarks` | src/wireguard.c:677-682 | a packet without payload sets the times and the flag and nothing else of the session |
| `Limits.TooLate` | src/wireguard.c:659-673 | 180 seconds after its handshake a session delivers nothing; a previous one is wiped by the attempt, a current one stays |
| `Limits.TriggerAccepts` | src/wg_noise.c:124-178 | the state kept for a handshake that output starts accepts the peer's genuine answer, which comes to the index chosen |
| `Forged.ForgedEffect` | src/wireguard.c:659-700 | a packet that does not open is never delivered, and changes the tunnel exactly if it is empty, reaches an unexpired session and finds a time or flag to set, or reaches an expired previous session that is not wiped yet |
| `Forged.ForgedKeepalive` | src/wireguard.c:677-682 | on a live session of the table, every forged empty packet sets the times of the last packet received and sent |
| `Forged.ForgedSilences` | src/wireguard.c:743-778 | and so puts off the peer's next keepalive |
| `Nonces.ResponderOwner` | src/wg_noise.c:283-337 | a responder's sending key determines its own ephemeral |
| `Nonces.InitiatorOwner` | src/wg_noise.c:387-422 | an initiator's sending key determines its own ephemeral |
| `Nonces.NextKeeps` | src/wireguard.c:230-272 | with fresh ephemerals, every step keeps: counters count the packets sent under their key, and no two senders share a key |
| `NonceRuns.StepSends` | src/wireguard.c:230-489 | a step sends at most one packet, and sends it under the all-zero key exactly when wg_connect or wg_rekey returns success while the legacy session is invalid |
| `NonceRuns.CounterReuse` | src/wireguard.c:230-272 | in every run with fresh ephemerals, two packets under one installed key, or without a key between two wipes, share a counter exactly when a multiple of 2^64 packets lies between them |
| `NonceRuns.SharedNonce` | src/wireguard.c:230-272 | within 2^64 packets per key, two packets share key and counter exactly when both are under the all-zero key and equally many such packets were sent since the last wipe before each |
| `NonceRuns.NonceOnce` | src/wireguard.c:848-850 | so no pair of installed key and counter is used twice, although every installation resets the counter |
| `NonceRuns.RepeatsIff` | src/wireguard.c:782-787 | within 2^64 packets per key, a run repeats a nonce exactly when the keepalive thread wipes a valid legacy session between two keepalives on one without keys |
| `Calls.Ends` | src/wireguard.c:311-387 | an attempt ends with keys and leaves the loop, or without; then `err` is WG_OK exactly after a first message that wg_connect refuses or a cookie in wg_rekey |
| `Calls.ConnectedWithoutKeys` | src/wireguard.c:299-489 | in every run, whatever the other threads do meanwhile, a call returns WG_OK without a step of its own installing keys exactly if it has used all eighteen attempts and the last ended in one of those two ways |
| `Calls.WhyWiped` | src/wireguard.c:393-400 | a call that returns WG_OK on a legacy session without keys has done so, or has answered a table peer, or its keys were wiped since |
| `FailedCall.FailedRekey` | src/wireguard.c:478-489 | in every run, whatever the other threads do meanwhile, wg_rekey returns an error with the index that the session had when the call began, and everything else as the last attempt left it |
| `EmptyCall.ReturnsForNothing` | src/wireguard.c:299-489 | for every tunnel, runs of eighteen attempts after which wg_connect and wg_rekey return WG_OK and nothing was ever installed |
| `EmptyCall.BadMacRefused` | src/wg_noise.c:195-206 | every first message whose mac1 is not the keyed hash of its fields is refused |
| `WipedRun.WipedReuse` | src/wireguard.c:299-401 | for every tunnel, a run of wg_connect, the receive thread and whole periods of the keepalive thread that sends two packets under the all-zero key with counter zero |
| `EndToEnd.HandshakeMatches` | src/wg_noise.c:66-437 | across two tunnels, a handshake installs sessions with crosswise equal keys and indices exactly if the preshared keys agree, and otherwise the initiator installs none |
| `EndToEnd.InOrderAccepted` | src/wg_counter.c:6-36 | counters that arrive in increasing order are all accepted |
| `EndToEnd.Arrived` | src/wireguard.c:657-700 | after payloads have arrived in the order of their counters, the session is still found, and its window has seen exactly those within its lifetime |
| `EndToEnd.AllDelivered` | src/wireguard.c:616-700 | at a tunnel whose session has received nothing yet, payloads that arrive in the order of their counters are delivered exactly if they arrive within 180 seconds of the handshake |
| `EndToEnd.SentIsDelivered` | src/wireguard.c:591-700 | after a handshake between two tunnels, the responder's receive thread delivers every in-order selection of the initiator's payloads that arrives within 180 seconds, and nothing later |
| `Relay.RecvPool.constructor` | src/wireguard.c:15-35 | an acyclic free list of all slots, the last one first |
| `Relay.RecvPool.Acquire` | src/wireguard.c:46-54 | the head of the list, or none if it is empty |
| `Relay.RecvPool.Release` | src/wireguard.c:56-62 | the slot becomes the head of the list |
| `Relay.LwipRelay.Start` | lwip-relay/src/wg_lwip_relay.cpp:57-134 | refused while running; otherwise the step Restart |
| `Relay.LwipRelay.Lower` | lwip-relay/src/wg_lwip_relay.cpp:142-143 | the step Lower |
| `Relay.LwipRelay.HandleIncomingPacket` | lwip-relay/src/wg_lwip_relay.cpp:271-286 | retained exactly while running; then the steps Enter and Push, with a signal exactly on empty to nonempty |
| `Relay.InvApart` | src/wireguard.c:527-716 | in every reachable state the queue, the batch and the holders hold different slots that are not free, as the methods ask |
| `Relay.LwipRelay.ReceiveTurn` | src/wireguard.c:527-716 | on every path of one turn of the receive thread, the acquired slot goes back to the pool exactly once, or into the queue and nowhere else |
| `Relay.LwipRelay.ProcessIncomingQueue` | lwip-relay/src/wg_lwip_relay.cpp:288-319 | the step Take and a step Deliver for each packet of the batch, in order; a signal exactly if a rest remains |
| `Relay.LwipRelay.TakeBatch` | lwip-relay/src/wg_lwip_relay.cpp:296-305 | the step Take: at most sixteen packets from the front, in order, and whether a rest remains |
| `Relay.LwipRelay.DeliverOne` | lwip-relay/src/wg_lwip_relay.cpp:306-317 | the step Deliver: into the first free holder, or straight back to the pool |
| `Relay.LwipRelay.SlotFreed` | lwip-relay/src/wg_netif.c:90-100 | the step Free: the holder is empty and its slot is free |
| `Relay.LwipRelay.DrainQueue` | lwip-relay/src/wg_lwip_relay.cpp:159-169 | the step Drain: the queue is empty and its slots are free |
| `RelayMachine.NextKeeps` | src/wireguard.c:527-716 | no step of any thread creates, copies or loses a slot |
| `RelayMachine.OnePlace` | src/wireguard.c:527-716 | in every interleaving each slot is in exactly one of free list, hand, queue, batch and holders |
| `RelayMachine.AllFree` | lwip-relay/src/wg_lwip_relay.cpp:306-317 | once the queue is drained and lwIP has released its buffers, all 256 slots are free, each once |
| `RelayMachine.NoLostWake` | lwip-relay/src/wg_lwip_relay.cpp:338-375 | in every interleaving, a loop blocked in poll with packets queued has a wake byte pending or about to be written, unless it has taken none since a start with packets queued and no wake-up on its way |
| `RelayMachine.StartSleeps` | lwip-relay/src/wg_lwip_relay.cpp:88-132 | a start leaves the new loop asleep beside a packet exactly when the queue is not empty and the receive thread is not about to wake it; poll's time-out then takes the packet |
| `RelayMachine.Oversleeps` | lwip-relay/src/wg_lwip_relay.cpp:57-169 | an interleaving in which that happens |
| `RelayMachine.Fifo` | lwip-relay/src/wg_lwip_relay.cpp:288-319 | packets leave the queue in arrival order, delivered or drained |
| `RelayMachine.Handing` | lwip-relay/src/wg_lwip_relay.cpp:306-317 | a packet gets to lwIP exactly if a buffer is to be had and some holder is unused, and then takes the first one; otherwise its slot is free again |
| `RelayMachine.Batch` | lwip-relay/src/wg_lwip_relay.cpp:288-319 | the loop takes up to sixteen packets, leaves some only if it took sixteen, and then wakes itself |
| `RelayMachine.StopStrands` | lwip-relay/src/wg_lwip_relay.cpp:142-169 | after a drain the queue stays empty until the next start exactly when the receive thread was not inside handleIncomingPacket at the drain |
| `RelayMachine.StrandedUntil` | lwip-relay/src/wg_lwip_relay.cpp:37-169 | a slot at the front of the queue stays there exactly until the next drain or take |
| `RelayMachine.Stranded` | lwip-relay/src/wg_lwip_relay.cpp:142-169 | an interleaving in which a slot stays in the stopped relay's queue |
| `RelayRing.Ring.Input` | src/platform_switch.c:41-58 | the packet goes into its slot exactly if it fits and fewer than 252 packets are uncommitted |
| `RelayRing.Ring.Commit` | src/platform_switch.c:62-65 | everything written is published |
| `RelayRing.Ring.Recv` | src/platform_switch.c:118-151 | the first nonempty packet of successive turns, cut to the buffer, or none within the deadline, whatever the sequence numbers |
| `RelayRing.GuardMeans` | src/platform_switch.c:45-51 | the guard counts the uncommitted packets, also when the sequence numbers wrap between them |
| `RelayRing.PollExact` | src/platform_switch.c:126-139 | a turn that finds something takes the packet that is due exactly when the producer, uncommitted packets included, is at most 256 ahead |
| `RelayRing.PollTakes` | src/platform_switch.c:137-148 | and then returns that packet, cut to the buffer, or skips it if it is empty |
| `RelayRing.Lossless` | src/platform_switch.c:41-151 | a reader that is never lapped returns exactly the nonempty packets before the one it wants, in order, once each |
| `RelayRing.Lapped` | src/platform_switch.c:45-51 | however far the reader is behind, the producer is let in; beyond 256 packets the first ones are lost |
| `RelayRing.Uncommitted` | src/platform_switch.c:126-139 | a turn returns a packet that is not committed exactly when the reader catches up and two are uncommitted, or the uncommitted ones have gone round to its slot |
| `RelayRing.UncommittedTaken` | src/platform_switch.c:41-65 | the guard lets that happen from every state in which all is committed and up to 256 packets wait |
| `RelayRing.StallsIff` | src/platform_switch.c:126-132 | a turn finds nothing although a packet is due exactly when the published sequence number has wrapped since |
| `RelayRing.Finite` | src/platform_switch.c:122-148 | in every run, of any length, the reader returns fewer than 2^32 packets |
| `RelayRing.Deaf` | src/platform_switch.c:126-132 | a reader at the last sequence number returns nothing for the rest of the run |
| `RelayRing.InStepReads` | src/platform_switch.c:118-151 | a reader that polls after every packet gets the first 2^32 - 1 packets and none after them |
| `RingBytes.NextInv` | src/platform_switch.c:41-58 | in every interleaving of single bytes, the last 256 slots hold their packets, but for the one being written |
| `RingBytes.Intact` | src/platform_switch.c:134-148 | a packet that is among the last 256 and not being written over, from the reading of its length to its last byte, is returned whole, cut to the buffer |
| `RingBytes.Overtaken` | src/platform_switch.c:134-148 | otherwise the next byte is that of the packet being written there, or of the last one put there |
| `RingBytes.Torn` | src/platform_switch.c:41-148 | an interleaving that returns bytes of two packets |

## Left out

- `Ladder.Scalarmult`: stops at the projective result; fe_invert and the curve's group law need the primality of 2^255 - 19.
- `FieldBytes.FeFromBytes`: models fe_frombytes_mask for one masked bit, the value that fe_frombytes passes.
- `Field25519.FeCswap`: the exchange is conditional instead of masked; `Field25519.MaskedExchange` shows on bit vectors that the masked xor is that exchange.
- `Poly1305Neon.Poly1305.Block`: the NEON and scalar routines form the same products, so they are one method; register duplication is not modelled.
- `ChaChaStream.XorNeon`: loads and stores go word by word, not four words at a time.
- `Aead.EncryptMono`: rekeying of the context, which is wiped after one message, is not modelled.
- `Aead.SealThenOpen`: beyond 2^38 - 64 bytes the two branches use different streams, so nothing is said of the plaintext when they are mixed.
- `Hashes.HmacCode`: for keys longer than a block the code truncates where RFC 2104 hashes; the contract says what the code does.
- `Device.Device.ReceiveTransport`: the update of the endpoint and the callback are not part of the tunnel's state.
- `Device.Device.Connect`: opening the socket, waiting times and jitter are not modelled; an attempt that ends for want of a reply may end at any time.
- `Noise.Agreement`: says nothing about the session indices, which the handshake hash does not cover; secrecy and computational arguments are out of scope.
- `RelayMachine.NoLostWake`: steps are critical sections and system calls; data races below that level and the memory order of atomics are not modelled.
- `Relay.LwipRelay.DeliverOne`: lwIP itself is an environment that frees each buffer once.
- `RelayRing.Ring.Recv`: a slot is read and written in one step; `RingBytes` has the single bytes, without the wrap of the sequence numbers and with the memory order of the code taken as sequential.
- wg_recv, the single-threaded receive call: same steps as the receive thread on the legacy session only.
- Cookies, mac2 and timestamps: mac2 is never checked, and decrypted timestamps are discarded.
- Sockets, DNS, threads and mutexes as such, the TCP and UDP relaying, base64 keys, logging and the canary fields.
- Argon2, BLAKE2b, EdDSA, Elligator and the scalar-field code of Monocypher: not on the tunnel's path.
- Wiping of secrets and constant-time behaviour: not functional properties.
