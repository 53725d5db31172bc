/** The whole protocol: an X3DH handshake whose secrets seed the two sides of a Double Ratchet session. */
module Handshake {
  import opened Wrappers
  import opened Bytes
  import opened Keys
  import opened Framing
  import opened SkippedKeys
  import opened RatchetSpec
  import opened Conversation
  import opened Curve25519
  import opened KeyUtils
  import opened Vxeddsa
  import opened X3dh
  import Lockstep
  import Delivery

  /** The sessions the two sides start, each from its own secret: the initiator's with the responder's signed
      prekey as the first remote ratchet key, the responder's with that prekey as its first own one. */
  function StartingWorld(secretA: Bytes32, secretB: Bytes32, spk: Bytes32, drawn: Bytes32): World {
    World([Party(InitSender(secretA, spk, drawn), 0), Party(InitReceiver(secretB, spk), -1)], [[]], multiset{}, {})
  }

  /** An honest handshake: the bundle is its owner's, its prekey is signed, the responder was given the initiator's
      keys, and the two sides computed secretA and secretB. */
  ghost predicate Shaken(c: Curve, bundle: PreKeyBundle, b: Bytes32, s: Bytes32, o: Option<Bytes32>, z: seq<byte>,
                         a: Bytes32, e: Bytes32, secretA: Bytes32, secretB: Bytes32) {
    && Lawful(c) && OwnedBy(c, bundle, b, s, o) && LiftableBundle(c, bundle)
    && Liftable(c, PublicKey(c, a)) && Liftable(c, PublicKey(c, e))
    && Sign(c, b, PublicKey(c, s), z).Ok?
    && bundle.signedPreKey.signature == Sign(c, b, PublicKey(c, s), z).value.signature
    && Initiator(c, a, bundle, e) == Ok(X3DHInitResult(secretA, PublicKey(c, e)))
    && Responder(c, b, s, o, PublicKey(c, a), PublicKey(c, e)) == Ok(secretB)
  }

  lemma SecretsAgree(c: Curve, bundle: PreKeyBundle, b: Bytes32, s: Bytes32, o: Option<Bytes32>, z: seq<byte>,
                     a: Bytes32, e: Bytes32, secretA: Bytes32, secretB: Bytes32)
    requires Shaken(c, bundle, b, s, o, z, a, e, secretA, secretB)
    ensures secretA == secretB
  {
    hide Lawful, Liftable, LiftableBundle, OwnedBy, Sign, Initiator, Responder, PublicKey, MessagePoint,
         CalculateKeyPair;
    HonestHandshake(c, bundle, b, s, o, z, a, e);
  }

  /** After an honest handshake every run of the session, over any network, is a run of the Double Ratchet with one
      shared secret, and so stays in lockstep, although the two sides computed their secrets independently. */
  lemma HonestSessionRuns(c: Curve, bundle: PreKeyBundle, b: Bytes32, s: Bytes32, o: Option<Bytes32>, z: seq<byte>,
                          a: Bytes32, e: Bytes32, secretA: Bytes32, secretB: Bytes32,
                          seed: Seed, ws: seq<World>, es: seq<Event>, k: nat)
    requires Shaken(c, bundle, b, s, o, z, a, e, secretA, secretB)
    requires seed.sk == secretA && seed.draws(0) == bundle.signedPreKey.publicKey[1..]
    requires |ws| == |es| + 1 && ws[0] == StartingWorld(secretA, secretB, seed.draws(0), seed.draws(1))
    requires forall i | 0 <= i < |es| :: Step(seed, ws[i], es[i], ws[i + 1])
    requires k < |ws|
    ensures Run(seed, ws, es) && Inv(seed, ws[k])
  {
    hide Shaken, Step, Inv, InitSender, InitReceiver;
    SecretsAgree(c, bundle, b, s, o, z, a, e, secretA, secretB);
    Lockstep.RunKeepsLockstep(seed, ws, es, k);
  }

  /** Headers sealed under one secret cannot be opened under another. */
  lemma OtherSecretRefuses(secretA: Bytes32, secretB: Bytes32, spk: Bytes32, drawn: Bytes32,
                           plaintext: seq<byte>, ad: seq<byte>)
    requires secretA != secretB && |ad| <= MAX_AD_SIZE
    ensures var r := Encrypt(InitSender(secretA, spk, drawn), plaintext, ad).1;
            r.Ok? && Open(InitReceiver(secretB, spk), r.value.encHeader, r.value.ciphertext, ad) ==
                     Refused(HeaderDecryptionFailed)
  {
    var s := InitSender(secretA, spk, drawn);
    OpenSealedHeader(HdrInitiator(Shared(secretA)), HdrInitiator(Shared(secretB)), NonceBytes(true, 0),
                     HeaderOfNext(s));
  }

  lemma SameSecretOpens(seed: Seed, plaintext: seq<byte>, ad: seq<byte>,
                        env: Env, st: Session, r: Result<seq<byte>, RatchetError>, lost: set<SkipId>)
    requires |ad| <= MAX_AD_SIZE && env.secret == seed.draws(2)
    requires var sealed := Encrypt(InitSender(seed.sk, seed.draws(0), seed.draws(1)), plaintext, ad).1;
             sealed.Ok? && Decrypts(InitReceiver(seed.sk, seed.draws(0)), sealed.value.encHeader,
                                    sealed.value.ciphertext, ad, env, st, r, lost)
    ensures r == Ok(plaintext)
  {
    EmptyStore(seed.sk, seed.draws(0));
    hide Encrypt, InitSender, InitReceiver, Inv, Decrypts, Delivery.Verdict;
    var w' := FirstWorld(seed, plaintext, ad);
    assert IsSent(w'.log, 0, 0);
    FirstVerdict(seed, w'.log, w'.parties[1]);
    var m := w'.log[0][0].value;
    assert m.plaintext == plaintext && m.ad == ad;
    assert Decrypts(w'.parties[1].st, m.encHeader, m.ciphertext, m.ad, env, st, r, lost);
    Delivery.VerdictIsExact(seed, w', 1, 0, 0, env, st, r, lost);
  }

  /** The state after the initiator has sealed its first message. */
  lemma FirstWorld(seed: Seed, plaintext: seq<byte>, ad: seq<byte>) returns (w': World)
    requires Encrypt(InitSender(seed.sk, seed.draws(0), seed.draws(1)), plaintext, ad).1.Ok?
    ensures var sealed := Encrypt(InitSender(seed.sk, seed.draws(0), seed.draws(1)), plaintext, ad).1.value;
            && Inv(seed, w') && |w'.parties| == 2
            && w'.parties[1] == Party(InitReceiver(seed.sk, seed.draws(0)), -1)
            && w'.log == [[Some(Sent(0, sealed.encHeader, sealed.ciphertext, ad, plaintext))]]
  {
    hide Encrypt, InitSender, InitReceiver, AfterSend, Inv;
    var w := StartingWorld(seed.sk, seed.sk, seed.draws(0), seed.draws(1));
    EmptyStore(seed.sk, seed.draws(0));
    Lockstep.InitKeepsLockstep(seed, w);
    Lockstep.SendKeepsLockstep(seed, w, 0, plaintext, ad);
    AfterFirstSend(w, plaintext, ad);
    w' := AfterSend(w, 0, plaintext, ad);
  }

  lemma FirstVerdict(seed: Seed, log: Log, q: Party)
    requires Bounded(log) && |log| == 1 && IsSent(log, 0, 0)
    requires q.epoch == -1 && q.st.mkskipped == map[] && q.st.received == {} && q.st.nr == 0
    ensures Delivery.Verdict(seed, log, q, 0, 0) == None
  {
  }

  lemma AfterFirstSend(w: World, plaintext: seq<byte>, ad: seq<byte>)
    requires Shape(w) && w.log == [[]] && w.parties[0].epoch == 0
    requires w.parties[0].st.ns == 0 && Encrypt(w.parties[0].st, plaintext, ad).1.Ok?
    ensures var w', sealed := AfterSend(w, 0, plaintext, ad), Encrypt(w.parties[0].st, plaintext, ad).1.value;
            && |w'.parties| == 2 && w'.parties[1] == w.parties[1]
            && w'.log == [[Some(Sent(w.parties[0].st.headerNonceCounter, sealed.encHeader, sealed.ciphertext, ad,
                                     plaintext))]]
  {
    hide SealHeader, SealBody, ConcatAd, NonceBytes, HeaderOfNext;
    var sealed := Encrypt(w.parties[0].st, plaintext, ad).1.value;
    var entry := Some(Sent(w.parties[0].st.headerNonceCounter, sealed.encHeader, sealed.ciphertext, ad, plaintext));
    assert w.log[0] == [] && w.log[0] + [entry] == [entry];
    assert w.log[0 := [entry]] == [[entry]];
  }

  lemma EmptyStore(secret: Bytes32, spk: Bytes32)
    ensures var st := InitReceiver(secret, spk); st.mkskipped == map[] && st.received == {} && st.nr == 0
    ensures forall drawn :: var st := InitSender(secret, spk, drawn); st.ns == 0 && st.headerNonceCounter == 0
  {
  }

  /** The initial message: the responder decrypts it when both sides hold one secret, and otherwise refuses it
      and stays as it was. */
  lemma InitialMessage(secretA: Bytes32, secretB: Bytes32, spk: Bytes32, drawn: Bytes32, plaintext: seq<byte>,
                       ad: seq<byte>, env: Env, st: Session, r: Result<seq<byte>, RatchetError>, lost: set<SkipId>)
    requires |ad| <= MAX_AD_SIZE
    requires var sealed := Encrypt(InitSender(secretA, spk, drawn), plaintext, ad).1;
             sealed.Ok? && Decrypts(InitReceiver(secretB, spk), sealed.value.encHeader, sealed.value.ciphertext, ad,
                                    env, st, r, lost)
    ensures secretA == secretB ==> r == Ok(plaintext)
    ensures secretA != secretB ==> r == Err(HeaderDecryptionFailed) && st == InitReceiver(secretB, spk)
  {
    hide Encrypt, InitSender, InitReceiver, Open, Accepts;
    if secretA != secretB {
      OtherSecretRefuses(secretA, secretB, spk, drawn, plaintext, ad);
    } else {
      hide Decrypts;
      var seed := Seed(secretA, n => if n == 0 then spk else if n == 1 then drawn else env.secret);
      SameSecretOpens(seed, plaintext, ad, env, st, r, lost);
    }
  }

  /** The initial message of an accepted handshake reaches exactly the responder it is meant for: unless HKDF
      collides, it is decrypted if and only if the responder was given the initiator's own keys, up to sign and
      small-order parts, and used the one-time prekey of the bundle. */
  lemma InitialMessageBindsPeer(c: Curve, bundle: PreKeyBundle, b: Bytes32, s: Bytes32, o: Option<Bytes32>,
                                a: Bytes32, e: Bytes32, o': Option<Bytes32>, peer: Bytes33, peerEphemeral: Bytes33,
                                secretA: Bytes32, secretB: Bytes32, spk: Bytes32, drawn: Bytes32,
                                plaintext: seq<byte>, ad: seq<byte>, env: Env, st: Session,
                                r: Result<seq<byte>, RatchetError>, lost: set<SkipId>)
    requires Lawful(c) && OwnedBy(c, bundle, b, s, o) && Liftable(c, peer) && Liftable(c, peerEphemeral)
    requires LiftableBundle(c, bundle) && |ad| <= MAX_AD_SIZE && spk == bundle.signedPreKey.publicKey[1..]
    requires Initiator(c, a, bundle, e).Ok? && Responder(c, b, s, o', peer, peerEphemeral).Ok?
    requires var km, km' := KeyMaterial(c, InitiatorPairings(a, bundle, e)),
                            KeyMaterial(c, ResponderPairings(b, s, o', peer, peerEphemeral));
             km.Ok? && km'.Ok? ==> NoCollision(c, km.value, km'.value)
    requires Initiator(c, a, bundle, e).value.sharedSecret == secretA
    requires Responder(c, b, s, o', peer, peerEphemeral).value == secretB
    requires var sealed := Encrypt(InitSender(secretA, spk, drawn), plaintext, ad).1;
             sealed.Ok? && Decrypts(InitReceiver(secretB, spk), sealed.value.encHeader, sealed.value.ciphertext, ad,
                                    env, st, r, lost)
    ensures r == if SameHandshake(c, a, e, o, peer, peerEphemeral, o') then Ok(plaintext)
                 else Err(HeaderDecryptionFailed)
  {
    SecretBindsPeer(c, bundle, b, s, o, a, e, o', peer, peerEphemeral);
    hide Lawful, Liftable, LiftableBundle, OwnedBy, Initiator, Responder, KeyMaterial, NoCollision, SameHandshake,
         Decrypts, Encrypt, InitSender, InitReceiver;
    InitialMessage(secretA, secretB, spk, drawn, plaintext, ad, env, st, r, lost);
  }
}
