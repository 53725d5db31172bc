# A verified model of libsignal-dezire

This project models the session layer of libsignal-dezire in Dafny and proves what a conversation can rely on:
the Double Ratchet with header encryption as a two-party state machine over an unreliable network, VXEdDSA
signatures with their verifiable random function, and the X3DH key agreement that starts a session.

`dafny verify dfyconfig.toml` checks everything.

## How the model is built

* `Bytes`, `Wrappers`, `NumberTheory`: machine integers and their encodings, results, residues and primes.
* `Keys`, `Framing`: every output of a key derivation function is a term of one datatype, so two derived keys are
  equal exactly when they were derived alike. A Diffie-Hellman secret and its public key are named by the same 32
  bytes and a shared value is the unordered pair of two names. A sealed box is one element of a wire string and
  opens only under its key together with its nonce (headers) or its associated data (bodies).
* `SkippedKeys`: the bounded store of skipped message keys. `RatchetSpec`: a session as a value and what each
  operation does to it; decryption is a relation because eviction may break ties between timestamps in any way.
  `RatchetStates`: the session object with the source's fields and loops, each method proved against `RatchetSpec`.
* `Conversation`: two sessions and a network that drops, delays, reorders, repeats, recombines and injects. A run
  starts from one shared secret and makes any number of steps; the ratchet secrets drawn along it are an arbitrary
  sequence fixed in advance, so the key schedule is a function of the index of a sending chain. `Inv` is the
  invariant. `Lockstep`, `Authenticity`, `Delivery`, `Conservation`, `Gaps`, `Replays` and `Nonces` prove what
  follows, for every reachable state. `Continuations`, `Reopening` and `Stalls` build runs: what can still happen from a
  reachable state. `Arrivals` says exactly which first arrivals are accepted.
* `Curve25519`: the Edwards group of order 8l, cyclic, as residues modulo 8l with the basepoint at 8. Encodings, the
  map to the curve and the hashes are arbitrary functions constrained by `Lawful`; `CurveLaws` shows that these laws
  are consistent for every prime l of the right size. `KeyUtils`, `Vxeddsa` and `X3dh` are the library's algorithms
  over any lawful curve, and `Binding` says what their outputs depend on. `Handshake` runs X3DH and starts a session from its two independently computed secrets.

Map iteration order, ties between timestamps, clock readings, fresh secrets and signature randomness are arbitrary
everywhere: methods draw them freely, and lemmas quantify over them.

The hypotheses of the main results can be met. `CurveLaws` builds lawful curves, and `Witnesses` on them accepted,
forked and refused signatures and a handshake that succeeds; `Reopening` and `Stalls` build runs, and
`Continuations.DecryptExists` an outcome of decrypt for every state and input.

## Where code and specification differ

The model follows the code. Where its behaviour departs from section 4.6 of "The Double Ratchet Algorithm" or from
its own comments, the consequences are proved.

* A commit that skips ahead advances the chain key and `nr` by one, not to `n + 1` (src/ratchet.rs:530-551). Later
  messages, and the tail of the chain at the next DH ratchet step, derive keys at or above `nr` again, those of
  delivered messages included. Delivery stays exact (`VerdictIsExact`), but at-most-once fails once a message overtakes
  another: `AcceptedTwice` and `AcceptedLiveTwice` are runs from every seed. The exact condition is `Finished`, read
  off the receiver: what is finished is never accepted again on any run (`AtMostOnce`), and what is not can be accepted
  again in some continuation (`AcceptableExactly`). `AcceptanceFinishes` says which acceptances finish their message.
* A received message is tracked by ratchet key and index (src/ratchet.rs:347), and the ids are dropped only after the
  check. If a party draws one ratchet secret twice in a row, a first message of its new chain can be refused as a
  duplicate of one of its old chain: `FirstArrival` has the exact condition, `UndeliveredRefused` a run.
* The store of skipped keys is taken out before a call that can fail (src/ratchet.rs:489-495), so a DH ratchet step
  that finds more than 1000 messages of the old chain missing empties it; TooManyMessages is returned after the
  commit (src/ratchet.rs:361-366). `FailuresAreAtomic` says exactly when an error of decrypt changes the state;
  `StoreIsEmptied` and `TrackingRunsOut` are runs in which it does.
* `encrypt` advances the sending chain key before it checks the counters (src/ratchet.rs:284-302). The invariant
  therefore ties the key to the counter only below the maximum.
* `nr + MAX_SKIP` is 32-bit arithmetic (src/ratchet.rs:455). The model wraps as a release build does; a debug build
  would panic for chains longer than 2^32 - 1000.
* `vxeddsa_sign` does not check that the message point differs from the identity, but `vxeddsa_verify` does.
  `SignedIsVerified` and `HonestHandshake` give the exact condition.
* `MissingOneTimeKey` is never returned and `DecodeFailed` cannot be reached (`InitiatorAccepts`).

## Model

| member | source | states |
|---|---|---|
| Framing.HeaderRoundTrip | src/ratchet.rs:100-127 | parsing the bytes of any header yields the header |
| Framing.BytesRoundTrip | src/ratchet.rs:109-127 | parsing succeeds on exactly the 40-byte strings, and serializing the result gives the bytes back |
| Framing.HeaderLayout | src/ratchet.rs:97-106 | the key, then pn, then n, both in four bytes big-endian |
| Framing.ConcatAdInjective | src/ratchet.rs:761-767 | what is authenticated determines both the associated data and the encrypted header |
| Framing.AdLayout | src/ratchet.rs:761-767 | the length in eight bytes big-endian, the associated data, the encrypted header |
| Framing.NonceBytesInjective | src/ratchet.rs:716-720 | the nonce bytes determine the party and the counter |
| Framing.NonceLayout | src/ratchet.rs:716-720 | party byte 0 for the initiator and 255 for the responder, three zero bytes, the counter big-endian |
| Framing.SealedLayout | src/ratchet.rs:730-733 | the nonce goes out in clear before the box |
| Framing.OpenSealedHeader | src/ratchet.rs:703-758 | a sealed header opens under its own key, to itself, and under no other |
| Framing.OpenHeaderExactly | src/ratchet.rs:738-758 | a header opens under a key if and only if it was sealed with it, nonce in clear included; which failure gets which error |
| Framing.OpenBodyExactly | src/ratchet.rs:810-851 | a body opens under a key and associated data if and only if it was sealed with them |
| Keys.MsgKeyInjective | src/ratchet.rs:676-699 | no two messages of a session, in whatever chains, share a message key |
| Keys.HdrIndex | src/ratchet.rs:638-673 | header keys of different chains differ |
| Keys.RootBinds | src/ratchet.rs:638-652 | two sessions share a root key if and only if they have one secret and one history of Diffie-Hellman values |
| Keys.MsgKeyBinds | src/ratchet.rs:638-699 | message keys of any two sessions are equal if and only if the positions, the secrets and all pairs of neighbouring draws up to the chain's own are |
| Keys.HdrBinds | src/ratchet.rs:638-673 | header keys of any two sessions are equal if and only if the chains, the secrets and the pairs of draws behind them are |
| Keys.IterAdd | src/ratchet.rs:676-699 | chain steps compose |
| SkippedKeys.EvictOldestSkippedKeys | src/ratchet.rs:618-631 | for every iteration order and tie, exactly min(size, target) entries survive unchanged and no evicted one is newer than a survivor |
| SkippedKeys.IterationOrderByTime | src/ratchet.rs:619-622 | every key once, oldest timestamp first |
| SkippedKeys.SkipMessageKeys | src/ratchet.rs:558-600 | refuses exactly the reversed and the too long ranges, otherwise enters the keys of the range one by one, making room by eviction |
| SkippedKeys.SkipLimits | src/ratchet.rs:564-574 | a range is InvalidHeader exactly when reversed and OldMessageKeysLimitReached exactly when longer than 1000 |
| SkippedKeys.SkipsContentsAt | src/ratchet.rs:576-599 | what a skip does to one key: it vanishes only by eviction, appears only from the range, and holds the chain's message key there |
| SkippedKeys.SkipsContents | src/ratchet.rs:576-599 | the same for all keys at once |
| SkippedKeys.SkipsSize | src/ratchet.rs:570-599 | the store stays within 2000 entries and one call evicts at most once, and then exactly 1000 |
| SkippedKeys.SkipsKeepsNewKeys | src/ratchet.rs:576-599 | with a clock later than every stored timestamp no call evicts a key it entered itself, overwriting included |
| SkippedKeys.SkipsKeepsRecent | src/ratchet.rs:570-599 | entries newer than all others survive a call that with them makes at most 1000 |
| SkippedKeys.SkipsExists | src/ratchet.rs:558-600 | a skip has an outcome for every store and clock |
| SkippedKeys.TrySkippedMessageKeys | src/ratchet.rs:379-413 | finds and removes the one stored key that opens the message, whatever the iteration order, and else leaves the store alone |
| SkippedKeys.StoredMatchUnique | src/ratchet.rs:392-410 | at most one stored key opens a message, to one plaintext |
| RatchetSpec.SimulationMatchesCommit | src/ratchet.rs:436-554 | the read-only computation finds the key at index n of the very chain the commit installs, and the keys the commit stores are those it would compute for the skipped indices |
| RatchetSpec.InitBinds | src/ratchet.rs:205-206 | the initiator's first root, chain and next header key depend on the secret, its draw and the responder's key |
| RatchetSpec.ReceivingBinds | src/ratchet.rs:507-511 | the keys of the receiving half of a ratchet step depend on the key in the header |
| RatchetSpec.SendingBinds | src/ratchet.rs:513-524 | those of the sending half differ whenever the fresh draws differ |
| RatchetSpec.EncryptFailures | src/ratchet.rs:271-310 | the four ways encrypt fails, with the exact state each leaves: the chain key moves on when the indices run out, the index is used when the nonces do |
| RatchetSpec.LargeAdRefused | src/ratchet.rs:327-329 | decrypt reports ADTooLarge exactly above 65536 bytes |
| RatchetStates.RatchetState.InitSenderState | src/ratchet.rs:197-229 | the initiator's first state, for some fresh secret |
| RatchetStates.RatchetState.InitReceiverState | src/ratchet.rs:234-256 | the responder's first state |
| RatchetStates.RatchetState.EncryptMessage | src/ratchet.rs:271-310 | new state and result of encrypt in every case, the counter overflows included |
| RatchetStates.RatchetState.EncryptHeader | src/ratchet.rs:703-735 | the sealed header, its nonce and the next counter, or the error |
| RatchetStates.RatchetState.DecryptMessage | src/ratchet.rs:321-370 | new state and result of decrypt in every case, with the keys lost on the way |
| RatchetStates.RatchetState.ComputeMessageKeyOf | src/ratchet.rs:436-473 | the message key at the index of the header, in at most 1000 chain steps, without touching the state |
| RatchetStates.RatchetState.CommitStateChanges | src/ratchet.rs:479-554 | the whole commit, failing or not |
| RatchetStates.RatchetState.StoreOldChain | src/ratchet.rs:484-496 | storing the rest of the old chain, and the emptied store on failure |
| RatchetStates.RatchetState.RatchetReceivingChain | src/ratchet.rs:498-511 | the receiving half of the DH ratchet step |
| RatchetStates.RatchetState.RatchetSendingChain | src/ratchet.rs:513-527 | the sending half, from a fresh secret |
| RatchetStates.RatchetState.AdvanceChain | src/ratchet.rs:530-551 | the skipped keys of the current chain, then one step of the chain |
| Lockstep.InitKeepsLockstep | src/ratchet.rs:197-256 | the two initial states are in lockstep |
| Lockstep.SendKeepsLockstep | src/ratchet.rs:271-310 | every encrypt, failing or not, keeps lockstep |
| Lockstep.RatchetedLive | src/ratchet.rs:484-551 | a DH ratchet step installs the next elements of the shared key schedule on the receiver, or empties its store |
| Lockstep.DirectLive | src/ratchet.rs:530-551 | accepting a message of the current chain keeps the receiver's part of the invariant |
| Lockstep.DeliverKeepsLockstep | src/ratchet.rs:321-370 | every decrypt of anything the network can deliver keeps lockstep |
| Lockstep.RunKeepsLockstep | src/ratchet.rs:484-528 | in every state of every run both parties hold the matching elements of one key schedule, their sending chains adjacent, every stored key is the one its sender used, and nr is the size of the received set up to its limit |
| Lockstep.NeighboursAgree | src/ratchet.rs:498-524 | read without the schedule: matching header keys, root keys one step apart, chain keys at their positions of common chains |
| Lockstep.PartiesAgree | src/ratchet.rs:498-524 | that agreement in every state of every run |
| Authenticity.HeaderIsSent | src/ratchet.rs:738-758 | a header that opens under a session key was sealed by its owner |
| Authenticity.BodyIsSent | src/ratchet.rs:305-306 | a body that opens under a message key is the peer's, with its own header and associated data |
| Authenticity.ComputedKey | src/ratchet.rs:436-473 | the key the receiver computes is the key the sender used for that index, or for the position if that is later |
| Authenticity.OpeningExplained | src/ratchet.rs:327-356 | whatever a receiver authenticates is exactly one message its peer sent |
| Delivery.OpeningOfSent | src/ratchet.rs:327-356 | how a genuine message is opened, in every state |
| Delivery.SentIsDeliverable | src/ratchet.rs:271-310 | what was sent can be delivered |
| Delivery.VerdictIsExact | src/ratchet.rs:321-473 | every genuine message, delivered before or not, in any order, is accepted with its plaintext exactly when its key is stored, or it is in reach of the current or the next chain and its id is not tracked; otherwise it gets the named error |
| Arrivals.RunTracksDelivered | src/ratchet.rs:346-367 | in every state of every run a party tracks only messages of its current chain that were delivered to it |
| Arrivals.FirstArrival | src/ratchet.rs:321-473 | in every state of every run a message never delivered before is accepted with its plaintext if and only if it is within the limits (key stored; or current chain, nr to nr + 1000, fewer than 10000 tracked; or next chain, index and missing tail at most 1000) and not taken for a duplicate; otherwise it is refused |
| Arrivals.UndeliveredRefused | src/ratchet.rs:346-350 | from every seed in which the initiator draws one ratchet secret twice in a row, a run after which a message never delivered and within the limits is refused as a duplicate |
| Delivery.ForgeriesChangeNothing | src/ratchet.rs:321-356 | anything that is not, as a whole, one message of the peer is refused and changes nothing |
| Delivery.FailuresAreAtomic | src/ratchet.rs:327-369 | an error changes the state if and only if the message authenticates and either starts a new chain with more than 1000 old messages missing and something in the store (then the store is emptied, nothing else) or belongs to the current chain with 10000 messages tracked (then the whole commit is made) |
| Conservation.RunConserves | src/ratchet.rs:484-599 | every message sent up to the receiver's current chain is delivered, stored, still ahead, or among the recorded discarded keys |
| Conservation.NothingDiscardedBelowLimits | src/ratchet.rs:361-366 | a delivery discards no key if the store has room for the backlog and, for a new chain, at most 1000 old messages are missing, otherwise fewer than 10000 are tracked |
| Gaps.GapsAreRecoverable | src/ratchet.rs:530-551 | after a message overtakes others, the key of each of them is stored and each would be accepted, if the store had room or the clock has moved on |
| Gaps.TailIsRecoverable | src/ratchet.rs:484-496 | after the first message of a new chain to arrive, the key of every old message from the position on is stored and each would be accepted, if the store had room, or the clock has moved on and at most 1000 keys were to be entered |
| Continuations.DecryptExists | src/ratchet.rs:321-370 | decrypt returns on every state and input |
| Continuations.RunIsReached | src/ratchet.rs:346-367 | in every state of every run nothing of the current chain is tracked or stored 1000 or more ahead of the position, every index used holds a message unless its sender ran out of nonces, and only messages of chains the receiver has reached are delivered |
| Reopening.StoredReplay | src/ratchet.rs:399-403 | delivering a stored message removes its key and nothing else, and an immediate replay is accepted if and only if its index is at or above nr in the current chain, in reach and not tracked |
| Reopening.AcceptedTwice | src/ratchet.rs:530-551 | from every seed a run of six steps in which a message is accepted from the store and again on the receiving chain |
| Reopening.AcceptedLiveTwice | src/ratchet.rs:530-551 | from every seed a run of six steps in which a message is accepted on the receiving chain, tracked, stored by the next message and accepted again from the store |
| Reopening.TopIsOpen | src/ratchet.rs:454-457 | the message 1000 ahead of the position is never tracked or stored yet |
| Reopening.AcceptableExactly | src/ratchet.rs:321-370 | in every state of every run, a sent message can be accepted in some continuation, once more if it was accepted before, if and only if its receiver has not finished it: chain not reached, or key stored, or index at or beyond the position of the current chain |
| Stalls.NeverStuck | src/ratchet.rs:484-551 | from every state of every run in which the peer has begun a new chain, some continuation brings the party into it, however many messages are missing |
| Stalls.StuckWhileLost | src/ratchet.rs:484-496 | a party more than 1000 messages behind enters no other epoch as long as none of the messages from its position to 1000 beyond it arrives |
| Stalls.StoreIsEmptied | src/ratchet.rs:489-495 | from every seed a run whose last delivery returns an error and empties a store that held keys |
| Stalls.TrackingRunsOut | src/ratchet.rs:361-366 | from every seed a run delivered in order whose 10001st delivery commits and returns an error |
| Replays.StepKeepsFinished | src/ratchet.rs:321-370 | whatever step is taken by anyone, a finished message stays finished and is not accepted |
| Replays.AcceptanceFinishes | src/ratchet.rs:485-551 | an accepted message is finished if and only if it was at the very position of its chain, or came from the store and is of an older chain or behind the position |
| Replays.AtMostOnce | src/ratchet.rs:346-350 | over every run, in order or not, a message its receiver has finished stays finished and is never accepted again |
| Replays.RunDeliversOnce | src/ratchet.rs:346-367 | on runs without overtaking every delivered message has been delivered exactly once and is finished |
| Replays.ReplaysRefused | src/ratchet.rs:346-350 | at every state of every run, decrypting a finished message returns an error and leaves the session unchanged |
| Nonces.DecryptKeepsCounter | src/ratchet.rs:321-370 | decrypt touches neither the nonce counter nor the role |
| Nonces.RunKeepsFresh | src/ratchet.rs:300-302 | each counter stays above all it has used, none used twice |
| Nonces.NoncesNeverRepeat | src/ratchet.rs:710-720 | in a whole run of both parties no two encrypted headers carry the same 12 nonce bytes |
| NumberTheory.LeRoundTrip | src/vxeddsa.rs:162-164 | reading back the little-endian bytes of a number below the range gives the number |
| Curve25519.MulModL | src/utils.rs:56 | on multiples of 8 scalars count modulo l |
| Curve25519.CofactorOfMultiple | src/vxeddsa.rs:216-218 | eight times a scalar multiple is the identity only for points of small order |
| Curve25519.SameU | src/utils.rs:39-44 | two points have one u-coordinate exactly when they are equal up to sign |
| Curve25519.MulCancel | src/utils.rs:47-52 | a scalar that is a multiple of 8 identifies two points exactly when they differ by a small-order point |
| Bytes.LowBitsCleared | src/utils.rs:48 | masking a byte with 248 subtracts its residue modulo 8 |
| Bytes.TopBits | src/utils.rs:49-50 | masking with 127 and setting 64 leaves 64 plus the six low bits |
| KeyUtils.ClampPrivateKey | src/utils.rs:47-52 | the three bit operations, in place, give the clamped key that the arithmetic results speak of |
| KeyUtils.ClampRange | src/utils.rs:47-52 | a clamped seed is a multiple of 8 in [2^254, 2^255), and clamping is idempotent |
| KeyUtils.ClampBinds | src/utils.rs:47-52 | two seeds clamp to one integer if and only if they agree in every bit but the low three of the first byte and the top two of the last |
| KeyUtils.ClampFixed | src/utils.rs:47-52 | exactly the keys of clamped form are unchanged |
| KeyUtils.ClampNonZero | src/utils.rs:55-57 | it is never zero modulo l |
| KeyUtils.SignedScalarPoint | src/utils.rs:59-62 | sign normalisation: the chosen scalar is non-zero and its point is the one of the two with sign bit 0 |
| KeyUtils.KeyPairMatchesPublicKey | src/utils.rs:55-65 | the Edwards public point has sign bit 0 and is the one to_edwards(0) recovers from the X25519 public key |
| KeyUtils.PublicKeysAgree | src/vxeddsa.rs:74-78 | two seeds have one public key if and only if their clamped scalars agree up to sign modulo l |
| KeyUtils.PublicKeyRoundTrip | src/utils.rs:76-96 | decoding inverts encoding and accepts nothing else |
| KeyUtils.EncodeInto | src/utils.rs:76-81 | the encoded key is filled in place |
| KeyUtils.DecodeInto | src/utils.rs:89-96 | the decoded key, or InvalidPrefix |
| KeyUtils.ConvertMasking | src/utils.rs:68-72 | bit 255 is ignored by the conversion |
| KeyUtils.ConvertIgnoresTopBit | src/utils.rs:68-72 | the conversion sees every bit but the top one |
| KeyUtils.ValidMeansLargeOrder | src/utils.rs:11-36 | a key is valid if and only if it has the prefix, is not all zero and its point is not of small order |
| KeyUtils.GeneratedKeyIsValid | src/vxeddsa.rs:74-78 | every key the library makes is valid and converts to the signer's public point |
| Vxeddsa.VxeddsaSign | src/vxeddsa.rs:96-167 | signature and VRF output for given randomness, assembled in place |
| Vxeddsa.VxeddsaVerify | src/vxeddsa.rs:183-247 | every way to refuse, and the VRF output otherwise |
| Binding.VerifierReads | src/vxeddsa.rs:194-220 | the verifier gets to the challenge if and only if the key is well formed, both scalars are canonical, V is a point, and the key, V and the message point are not of small order |
| Binding.ChallengeBinds | src/vxeddsa.rs:228-240 | with a fourth hash that always answers n, a signature is accepted if and only if it can be read and its challenge field is n modulo l |
| Binding.ChallengeInputBinds | src/vxeddsa.rs:142-147 | the challenge hashes all of A, V, R, Rv and the message |
| Binding.ResponseUnique | src/vxeddsa.rs:200 | a signature has one accepted response: no other last field passes with the same V, challenge and commitment |
| Binding.NonceBinds | src/vxeddsa.rs:120-130 | two calls share a nonce scalar only with one secret scalar, one V and one draw of randomness, unless the third hash collides |
| Binding.VrfBinds | src/vxeddsa.rs:154-159 | the VRF output has 32 bytes and, unless those of the fifth hash collide, determines V up to small order |
| Binding.VrfTellsMessagesApart | src/vxeddsa.rs:110-159 | one key gives two messages one VRF output if and only if their hashed points agree up to small order, unless that hash collides |
| Vxeddsa.MessagePointInSubgroup | src/vxeddsa.rs:115 | the message point lies in the subgroup of order l |
| Vxeddsa.CommitmentRecomputed | src/vxeddsa.rs:222-226 | s times P minus h times aP is the signer's commitment rP |
| Vxeddsa.SignatureFields | src/vxeddsa.rs:152-166 | V, h and s read back from a signature, tied to one nonce scalar |
| Vxeddsa.RecomputesCommitments | src/vxeddsa.rs:194-226 | the verifier recomputes exactly the signer's commitments, or gives up because the message point is the identity |
| Vxeddsa.SignedIsVerified | src/vxeddsa.rs:96-247 | completeness: a signature under any seed, message and randomness verifies if and only if the message point is not the identity, and yields the signer's VRF output |
| Witnesses.SignatureAccepted | src/vxeddsa.rs:96-247 | there is a lawful curve on which every key signs every message and the signature is accepted |
| Witnesses.SignatureRefused | src/vxeddsa.rs:216-220 | there is a lawful curve on which every key signs every message and the signature is refused: the message point is the identity |
| Vxeddsa.VrfIndependentOfNonce | src/vxeddsa.rs:154-159 | the reported output does not depend on the randomness |
| Vxeddsa.Extract | src/vxeddsa.rs:222-240 | two accepting transcripts with common commitments and different challenges yield one x with 8A = x(8B) and 8V = x(8Bv) |
| Vxeddsa.HonestForks | src/vxeddsa.rs:134-166 | the signer can answer any second challenge on its commitments, so such transcripts exist for every honest signature that verifies |
| Witnesses.TranscriptsForked | src/vxeddsa.rs:222-240 | there is a lawful curve with a pair of transcripts to extract from |
| Vxeddsa.LogarithmUnique | src/vxeddsa.rs:216-222 | that x is determined by the key |
| Vxeddsa.VrfUnique | src/vxeddsa.rs:216-246 | all signatures that can be extracted from for one key and message give one VRF output, small-order components notwithstanding |
| Vxeddsa.VrfIsTheOwners | src/vxeddsa.rs:216-246 | and for a generated key it is the output its owner computes |
| X3dh.X3dhInitiator | src/x3dh.rs:130-202 | checks in order, then the secret from the appended outputs |
| X3dh.X3dhResponder | src/x3dh.rs:220-265 | the same with the roles reversed |
| X3dh.MaterialInOrder | src/x3dh.rs:166-184 | the KDF input is DH1, DH2, DH3 and, if present, DH4, and any failing decode makes it DecodeFailed |
| X3dh.ValidOutput | src/x3dh.rs:96-104 | with a valid key Diffie-Hellman never fails and multiplies the key's point by the clamped secret |
| X3dh.OutputsAgree | src/x3dh.rs:96-104 | two owners of generated keys compute one shared value |
| X3dh.OutputBinds | src/x3dh.rs:96-104 | one private key gives equal values on two points exactly when they agree up to sign and small order |
| X3dh.InitiatorAccepts | src/x3dh.rs:135-170 | the initiator goes on if and only if all keys are valid and the signature verifies, and no other error occurs |
| X3dh.ResponderAccepts | src/x3dh.rs:227-230 | the responder goes on if and only if both keys are valid, and no other error occurs |
| X3dh.HonestHandshake | src/x3dh.rs:130-265 | with a bundle its owner signed both sides compute one secret, with and without a one-time prekey; the initiator refuses exactly when the message point is the identity |
| Witnesses.HandshakeSucceeds | src/x3dh.rs:130-265 | there is a lawful curve on which every honest handshake succeeds |
| X3dh.MaterialBinds | src/x3dh.rs:166-187 | both sides hash the same material if and only if the responder was given the initiator's keys and used the bundle's one-time prekey, up to sign and small order |
| X3dh.MaterialNamesBundle | src/x3dh.rs:166-187 | one initiator hashes the same material for two bundles if and only if they name the same keys, up to sign and small order |
| X3dh.KdfBinds | src/x3dh.rs:79-93 | the secret determines the material, unless HKDF collides on the two inputs behind their 32 bytes 0xFF |
| X3dh.SecretBindsBundle | src/x3dh.rs:166-187 | unless HKDF collides, one initiator shares a secret with two bundles if and only if they name the same keys |
| X3dh.SecretBindsPeer | src/x3dh.rs:186-187 | the same of the secrets, unless HKDF collides on these two inputs |
| Handshake.HonestSessionRuns | src/ratchet.rs:197-256 | sessions started from the two secrets of an honest handshake are in lockstep in every state of every run |
| Handshake.OtherSecretRefuses | src/ratchet.rs:416-433 | a responder with another secret cannot open the first header |
| Handshake.InitialMessage | src/ratchet.rs:321-370 | the first message is decrypted to its plaintext if the secrets agree, and refused without a trace if not |
| Handshake.InitialMessageBindsPeer | src/x3dh.rs:220-265 | from handshake to plaintext: the first message is decrypted if and only if the responder's inputs name the initiator's keys and the bundle's one-time prekey, up to sign and small order |

## Left out

- The C and JNI bindings (src/ffi, src/jni): pointer plumbing without logic of its own.
- Serialization of sessions and of the skipped-key map; restoring an old session breaks any statement about runs.
- The primitives: SHA-2, HMAC, HKDF, AES, X25519 and Edwards field arithmetic and the map to the curve are symbolic terms or arbitrary functions. Collisions between derived keys, forged boxes and malformed ciphertext lengths are outside the model of boxes.
- `hash_i` and its prefix bytes (src/hashes.rs): a family of arbitrary functions indexed by the prefix number.
- Zeroization, constant-time comparison, the quality of randomness and secrecy.
- Peers who know the keys of the session and deviate from the protocol.
- Montgomery u-coordinates on the twist, on which to_edwards panics (src/utils.rs:39-44): excluded by the preconditions OnCurve, Liftable and LiftableBundle.
- The session layer names a ratchet secret and its public key by the same bytes, so it does not repeat the algebra of X25519 proved in X3dh.
- Reopening.AcceptableExactly: the direction that builds a continuation assumes that the peer has header nonces left, that its chain is not within 1000 of 2^32 messages, and that no party draws the same ratchet secret twice in a row; the other direction assumes nothing.
- Reopening.StoredReplay: speaks of the replay that comes next only; AcceptableExactly covers every later one.
- Gaps.GapsAreRecoverable: assumes, where the store has no room for all keys to be entered, that the clock has moved on between the skips of a call, because eviction goes by timestamp.
- Gaps.TailIsRecoverable: assumes, where the store has no room, the same and at most 1000 keys to enter in all, because more can evict one another.
- SkippedKeys.SkipsKeepsNewKeys: assumes readings later than every stored timestamp, because with a clock set back the newest keys are the first to be evicted.
- Stalls.NeverStuck: assumes header nonces left and distinct ratchet secrets, as AcceptableExactly does.
- Vxeddsa.Extract: the two transcripts come from two hash functions on one prover, as rewinding gives; HonestForks shows this for honest signers, and that other provers can be rewound is not modelled.
