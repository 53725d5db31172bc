/** X3DH key agreement: the initiator from a prekey bundle, the responder from its private keys. */
module X3dh {
  import opened Wrappers
  import opened Bytes
  import opened NumberTheory
  import opened Curve25519
  import opened KeyUtils
  import opened Vxeddsa

  datatype SignedPreKey = SignedPreKey(id: u32, publicKey: Bytes33, signature: Bytes96)

  datatype OneTimePreKey = OneTimePreKey(id: u32, publicKey: Bytes33)

  datatype PreKeyBundle = PreKeyBundle(identityKey: Bytes33, signedPreKey: SignedPreKey,
                                       oneTimePreKey: Option<OneTimePreKey>)

  datatype X3DHError = InvalidSignature | InvalidKey | MissingOneTimeKey | DecodeFailed

  datatype X3DHInitResult = X3DHInitResult(sharedSecret: seq<byte>, ephemeralPublic: seq<byte>)

  /** kdf */
  function Kdf(c: Curve, km: seq<byte>): seq<byte> {
    c.hkdf(seq(32, _ => 0xFF) + km)
  }

  /** dh: the private key is clamped, the public key decoded. */
  function X25519(c: Curve, private: Bytes32, public: Bytes33): Result<seq<byte>, DecodeError> {
    match DecodePublicKey(public) {
      case Err(e) => Err(e)
      case Ok(u) => Ok(c.ladder(ClampedInt(private), u))
    }
  }

  /** A private and a public key to be combined. */
  datatype Pairing = Pairing(private: Bytes32, public: Bytes33)

  /** The Diffie-Hellman outputs of the pairings, one after the other. */
  function KeyMaterial(c: Curve, pairings: seq<Pairing>): Result<seq<byte>, X3DHError> {
    if pairings == [] then Ok([])
    else
      var last := pairings[|pairings| - 1];
      match (KeyMaterial(c, pairings[..|pairings| - 1]), X25519(c, last.private, last.public))
      case (Ok(km), Ok(dh)) => Ok(km + dh)
      case (_, _) => Err(DecodeFailed)
  }

  /** The pairings of the initiator: DH1 authenticates the initiator, DH2 the responder, DH3 and DH4 are fresh. */
  function InitiatorPairings(identity: Bytes32, bundle: PreKeyBundle, ephemeral: Bytes32): seq<Pairing> {
    [Pairing(identity, bundle.signedPreKey.publicKey),
     Pairing(ephemeral, bundle.identityKey),
     Pairing(ephemeral, bundle.signedPreKey.publicKey)] +
    match bundle.oneTimePreKey {
      case Some(opk) => [Pairing(ephemeral, opk.publicKey)]
      case None => []
    }
  }

  /** The pairings of the responder, with the roles reversed. */
  function ResponderPairings(identity: Bytes32, signedPreKey: Bytes32, oneTimePreKey: Option<Bytes32>,
                             peerIdentity: Bytes33, peerEphemeral: Bytes33): seq<Pairing> {
    [Pairing(signedPreKey, peerIdentity),
     Pairing(identity, peerEphemeral),
     Pairing(signedPreKey, peerEphemeral)] +
    match oneTimePreKey {
      case Some(opk) => [Pairing(opk, peerEphemeral)]
      case None => []
    }
  }

  /** A public key that is looked at names a point of the curve; to_edwards panics otherwise. */
  predicate Liftable(c: Curve, pk: Bytes33) {
    pk[0] == 0x05 && pk[1..] != seq(32, _ => 0) ==> OnCurve(c, pk[1..])
  }

  predicate LiftableBundle(c: Curve, bundle: PreKeyBundle) {
    && Liftable(c, bundle.identityKey) && Liftable(c, bundle.signedPreKey.publicKey)
    && (bundle.oneTimePreKey.Some? ==> Liftable(c, bundle.oneTimePreKey.value.publicKey))
  }

  predicate ValidBundleKeys(c: Curve, bundle: PreKeyBundle)
    requires c.l > 0 && LiftableBundle(c, bundle)
  {
    && IsValidPublicKey(c, bundle.identityKey) && IsValidPublicKey(c, bundle.signedPreKey.publicKey)
    && (bundle.oneTimePreKey.Some? ==> IsValidPublicKey(c, bundle.oneTimePreKey.value.publicKey))
  }

  /** x3dh_initiator, with the ephemeral key it draws. */
  function Initiator(c: Curve, identity: Bytes32, bundle: PreKeyBundle, ephemeral: Bytes32)
    : Result<X3DHInitResult, X3DHError>
    requires c.l > 0 && LiftableBundle(c, bundle)
  {
    var spk := bundle.signedPreKey;
    if !ValidBundleKeys(c, bundle) then Err(InvalidKey)
    else if Verify(c, bundle.identityKey, spk.publicKey, spk.signature).None? then Err(InvalidSignature)
    else
      match KeyMaterial(c, InitiatorPairings(identity, bundle, ephemeral)) {
        case Err(e) => Err(e)
        case Ok(km) => Ok(X3DHInitResult(Kdf(c, km), EncodePublicKey(PublicU(c, ephemeral))))
      }
  }

  /** x3dh_responder */
  function Responder(c: Curve, identity: Bytes32, signedPreKey: Bytes32, oneTimePreKey: Option<Bytes32>,
                     peerIdentity: Bytes33, peerEphemeral: Bytes33): Result<seq<byte>, X3DHError>
    requires c.l > 0 && Liftable(c, peerIdentity) && Liftable(c, peerEphemeral)
  {
    if !IsValidPublicKey(c, peerIdentity) || !IsValidPublicKey(c, peerEphemeral) then Err(InvalidKey)
    else
      match KeyMaterial(c, ResponderPairings(identity, signedPreKey, oneTimePreKey, peerIdentity, peerEphemeral)) {
        case Err(e) => Err(e)
        case Ok(km) => Ok(Kdf(c, km))
      }
  }

  // ---- The implementations ----

  lemma MaterialSnoc(c: Curve, ps: seq<Pairing>, p: Pairing)
    ensures KeyMaterial(c, ps + [p]) ==
            match (KeyMaterial(c, ps), X25519(c, p.private, p.public)) {
              case (Ok(km), Ok(dh)) => Ok(km + dh)
              case (_, _) => Err(DecodeFailed)
            }
  {
    hide X25519;
    assert (ps + [p])[..|ps|] == ps;
  }

  /** The first three outputs as they are appended, then the fourth where there is one. */
  lemma MaterialInOrder(c: Curve, p1: Pairing, p2: Pairing, p3: Pairing, rest: seq<Pairing>)
    requires |rest| <= 1
    ensures var dh1, dh2, dh3 := X25519(c, p1.private, p1.public), X25519(c, p2.private, p2.public),
                                 X25519(c, p3.private, p3.public);
            KeyMaterial(c, [p1, p2, p3] + rest) ==
            if dh1.Err? || dh2.Err? || dh3.Err? then Err(DecodeFailed)
            else if rest == [] then Ok(dh1.value + dh2.value + dh3.value)
            else
              match X25519(c, rest[0].private, rest[0].public) {
                case Err(_) => Err(DecodeFailed)
                case Ok(dh4) => Ok(dh1.value + dh2.value + dh3.value + dh4)
              }
  {
    MaterialSnoc(c, [], p1);
    assert KeyMaterial(c, [p1]) == match X25519(c, p1.private, p1.public) {
      case Err(_) => Err(DecodeFailed)
      case Ok(dh) => Ok(dh)
    } by {
      assert [] + [p1] == [p1];
      var dh1 := X25519(c, p1.private, p1.public);
      assert dh1.Ok? ==> [] + dh1.value == dh1.value;
    }
    MaterialSnoc(c, [p1], p2);
    MaterialSnoc(c, [p1, p2], p3);
    hide X25519, KeyMaterial;
    assert [p1] + [p2] == [p1, p2] && [p1, p2] + [p3] == [p1, p2, p3];
    if rest == [] {
      assert [p1, p2, p3] + rest == [p1, p2, p3];
    } else {
      assert [p1, p2, p3] + rest == [p1, p2, p3] + [rest[0]];
      MaterialSnoc(c, [p1, p2, p3], rest[0]);
    }
  }

  method X3dhInitiator(c: Curve, identity: Bytes32, bundle: PreKeyBundle, ephemeral: Bytes32)
    returns (out: Result<X3DHInitResult, X3DHError>)
    requires c.l > 0 && LiftableBundle(c, bundle)
    ensures out == Initiator(c, identity, bundle, ephemeral)
  {
    hide X25519, IsValidPublicKey, OnCurve;
    if !IsValidPublicKey(c, bundle.identityKey) || !IsValidPublicKey(c, bundle.signedPreKey.publicKey) {
      return Err(InvalidKey);
    }
    if bundle.oneTimePreKey.Some? && !IsValidPublicKey(c, bundle.oneTimePreKey.value.publicKey) {
      return Err(InvalidKey);
    }
    ValidLifts(c, bundle.identityKey);
    var vrf := VxeddsaVerify(c, bundle.identityKey, bundle.signedPreKey.publicKey, bundle.signedPreKey.signature);
    if vrf.None? {
      return Err(InvalidSignature);
    }
    ghost var ps := InitiatorPairings(identity, bundle, ephemeral);
    MaterialInOrder(c, ps[0], ps[1], ps[2], ps[3..]);
    assert ps == [ps[0], ps[1], ps[2]] + ps[3..];
    hide KeyMaterial, Verify;
    var dh1 := X25519(c, identity, bundle.signedPreKey.publicKey);
    if dh1.Err? {
      return Err(DecodeFailed);
    }
    var dh2 := X25519(c, ephemeral, bundle.identityKey);
    if dh2.Err? {
      return Err(DecodeFailed);
    }
    var dh3 := X25519(c, ephemeral, bundle.signedPreKey.publicKey);
    if dh3.Err? {
      return Err(DecodeFailed);
    }
    var chained := dh1.value;
    chained := chained + dh2.value;
    chained := chained + dh3.value;
    if bundle.oneTimePreKey.Some? {
      var dh4 := X25519(c, ephemeral, bundle.oneTimePreKey.value.publicKey);
      if dh4.Err? {
        return Err(DecodeFailed);
      }
      chained := chained + dh4.value;
    }
    out := Ok(X3DHInitResult(Kdf(c, chained), EncodePublicKey(PublicU(c, ephemeral))));
  }

  method X3dhResponder(c: Curve, identity: Bytes32, signedPreKey: Bytes32, oneTimePreKey: Option<Bytes32>,
                       peerIdentity: Bytes33, peerEphemeral: Bytes33)
    returns (out: Result<seq<byte>, X3DHError>)
    requires c.l > 0 && Liftable(c, peerIdentity) && Liftable(c, peerEphemeral)
    ensures out == Responder(c, identity, signedPreKey, oneTimePreKey, peerIdentity, peerEphemeral)
  {
    hide X25519, IsValidPublicKey, OnCurve;
    if !IsValidPublicKey(c, peerIdentity) || !IsValidPublicKey(c, peerEphemeral) {
      return Err(InvalidKey);
    }
    ghost var ps := ResponderPairings(identity, signedPreKey, oneTimePreKey, peerIdentity, peerEphemeral);
    MaterialInOrder(c, ps[0], ps[1], ps[2], ps[3..]);
    assert ps == [ps[0], ps[1], ps[2]] + ps[3..];
    hide KeyMaterial;
    var dh1 := X25519(c, signedPreKey, peerIdentity);
    if dh1.Err? {
      return Err(DecodeFailed);
    }
    var dh2 := X25519(c, identity, peerEphemeral);
    if dh2.Err? {
      return Err(DecodeFailed);
    }
    var dh3 := X25519(c, signedPreKey, peerEphemeral);
    if dh3.Err? {
      return Err(DecodeFailed);
    }
    var chained := dh1.value;
    chained := chained + dh2.value;
    chained := chained + dh3.value;
    if oneTimePreKey.Some? {
      var dh4 := X25519(c, oneTimePreKey.value, peerEphemeral);
      if dh4.Err? {
        return Err(DecodeFailed);
      }
      chained := chained + dh4.value;
    }
    out := Ok(Kdf(c, chained));
  }

  /** A valid key is decoded and lifted without failing. */
  lemma ValidLifts(c: Curve, pk: Bytes33)
    requires c.l > 0 && Liftable(c, pk) && IsValidPublicKey(c, pk)
    ensures pk[0] == 0x05 && OnCurve(c, pk[1..])
  {
  }

  // ---- Agreement ----

  /** The point of a valid public key. */
  function PointOf(c: Curve, pk: Bytes33): int {
    if OnCurve(c, pk[1..]) then ConvertMont(c, pk[1..]) else 0
  }

  /** The u-coordinate of a private key times a point. */
  function Output(c: Curve, private: Bytes32, p: int): seq<byte>
    requires c.l > 0
  {
    c.mont(Mul(c, ClampedInt(private), p))
  }

  /** Diffie-Hellman with a valid key never fails; it multiplies the key's point by the clamped secret. */
  lemma ValidOutput(c: Curve, private: Bytes32, pk: Bytes33)
    requires Lawful(c) && Liftable(c, pk) && IsValidPublicKey(c, pk)
    ensures X25519(c, private, pk) == Ok(Output(c, private, PointOf(c, pk)))
    ensures |Output(c, private, PointOf(c, pk))| == 32
    ensures IsPoint(c, PointOf(c, pk)) && PointOf(c, pk) % c.l != 0
  {
    hide LawfulGroup, LawfulEdwards, LawfulHashes, Mul, Clamped, FromLe;
    ValidMeansLargeOrder(c, pk);
    var u: Bytes32 := pk[1..];
    assert LadderAt(c, ClampedInt(private), u);
    MulIsPoint(c, ClampedInt(private), PointOf(c, pk));
    assert MontgomeryAt(c, Mul(c, ClampedInt(private), PointOf(c, pk)));
  }

  function PublicKey(c: Curve, private: Bytes32): Bytes33
    requires Lawful(c)
  {
    GeneratedKeyIsValid(c, private);
    EncodePublicKey(PublicU(c, private))
  }

  /** A key of the library's own making is valid, and its point is plus or minus the multiple of the basepoint
      by the clamped secret. */
  lemma OwnKey(c: Curve, private: Bytes32)
    requires Lawful(c)
    ensures var pk, p := PublicKey(c, private), Mul(c, ClampedInt(private), B);
            && Liftable(c, pk) && IsValidPublicKey(c, pk)
            && (PointOf(c, pk) == p || PointOf(c, pk) == Neg(c, p))
  {
    GeneratedKeyIsValid(c, private);
    KeyPairMatchesPublicKey(c, private);
    hide LawfulGroup, LawfulEdwards, LawfulHashes, Mul, Clamped, FromLe, CalculateKeyPair, IsValidPublicKey, SignBit;
    var p := Mul(c, ClampedInt(private), B);
    MulIsPoint(c, ClampedInt(private), B);
    ClampNonZero(c, private);
    NotSelfInverse(c, ClampedInt(private));
    assert MontgomeryAt(c, p);
    var pk := PublicKey(c, private);
    assert pk[1..] == PublicU(c, private);
  }

  /** X25519 does not see the sign of the point. */
  lemma OutputOfNeg(c: Curve, private: Bytes32, p: int)
    requires Lawful(c) && IsPoint(c, p)
    ensures Output(c, private, Neg(c, p)) == Output(c, private, p)
  {
    hide LawfulGroup, LawfulEdwards, LawfulHashes, Mul, Neg, Clamped, FromLe;
    MulNeg(c, ClampedInt(private), p);
    MulIsPoint(c, ClampedInt(private), p);
    assert MontgomeryAt(c, Mul(c, ClampedInt(private), p));
  }

  /** Diffie-Hellman: two owners of keys agree. */
  lemma OutputsAgree(c: Curve, x: Bytes32, y: Bytes32)
    requires Lawful(c)
    ensures Output(c, x, PointOf(c, PublicKey(c, y))) == Output(c, y, PointOf(c, PublicKey(c, x)))
  {
    OwnKey(c, x);
    OwnKey(c, y);
    hide Lawful, Mul, Neg, Clamped, FromLe, IsValidPublicKey, PublicKey, PointOf, Output, Liftable;
    MulIsPoint(c, ClampedInt(x), B);
    MulIsPoint(c, ClampedInt(y), B);
    OutputOfNeg(c, y, Mul(c, ClampedInt(x), B));
    OutputOfNeg(c, x, Mul(c, ClampedInt(y), B));
    ScalarsCommute(c, x, y);
  }

  lemma ScalarsCommute(c: Curve, x: Bytes32, y: Bytes32)
    requires c.l > 0
    ensures Output(c, x, Mul(c, ClampedInt(y), B)) == Output(c, y, Mul(c, ClampedInt(x), B))
  {
    hide Mul, Clamped, FromLe;
    var n, m := ClampedInt(x), ClampedInt(y);
    MulMul(c, n, m, B);
    MulMul(c, m, n, B);
    assert n * m == m * n;
  }

  // ---- The handshake ----

  /** The bundle was published by the owner of these private keys. */
  predicate OwnedBy(c: Curve, bundle: PreKeyBundle, identity: Bytes32, signedPreKey: Bytes32,
                    oneTimePreKey: Option<Bytes32>)
    requires Lawful(c)
  {
    && bundle.identityKey == PublicKey(c, identity)
    && bundle.signedPreKey.publicKey == PublicKey(c, signedPreKey)
    && match (bundle.oneTimePreKey, oneTimePreKey) {
         case (None, None) => true
         case (Some(opk), Some(private)) => opk.publicKey == PublicKey(c, private)
         case (_, _) => false
       }
  }

  lemma OwnedIsValid(c: Curve, bundle: PreKeyBundle, b: Bytes32, s: Bytes32, o: Option<Bytes32>)
    requires Lawful(c) && OwnedBy(c, bundle, b, s, o)
    ensures LiftableBundle(c, bundle) && ValidBundleKeys(c, bundle)
  {
    hide Lawful, PublicKey, IsValidPublicKey, Liftable;
    OwnKey(c, b);
    OwnKey(c, s);
    if o.Some? {
      OwnKey(c, o.value);
    }
  }

  /** Two points are the same up to sign and a small-order part. */
  predicate SamePeer(c: Curve, p: int, q: int)
    requires c.l > 0
  {
    Mul(c, 8, p) == Mul(c, 8, q) || Mul(c, 8, p) == Neg(c, Mul(c, 8, q))
  }

  /** A private key tells points apart exactly up to sign and small order. */
  lemma OutputBinds(c: Curve, private: Bytes32, p: int, q: int)
    requires Lawful(c) && IsPoint(c, p) && IsPoint(c, q) && q % c.l != 0
    ensures Output(c, private, p) == Output(c, private, q) <==> SamePeer(c, p, q)
  {
    var n := ClampedInt(private);
    ClampRange(private);
    ClampNonZero(c, private);
    hide LawfulGroup, LawfulEdwards, LawfulMontgomery, LawfulHashes, Mul, Neg, Clamped, FromLe, Pow256;
    MulIsPoint(c, n, p);
    MulIsPoint(c, n, q);
    MulIsPoint(c, n, q);
    NegFacts(c, q);
    MultipleNotSelfInverse(c, n, q);
    SameU(c, Mul(c, n, p), Mul(c, n, q));
    MulNeg(c, n, q);
    MulNeg(c, 8, q);
    MulCancel(c, n, p, q);
    MulCancel(c, n, p, Neg(c, q));
  }

  lemma MaterialOfOutputs(c: Curve, ps: seq<Pairing>, dh1: seq<byte>, dh2: seq<byte>, dh3: seq<byte>, dh4: seq<byte>)
    requires 3 <= |ps| <= 4
    requires X25519(c, ps[0].private, ps[0].public) == Ok(dh1) && X25519(c, ps[1].private, ps[1].public) == Ok(dh2)
    requires X25519(c, ps[2].private, ps[2].public) == Ok(dh3)
    requires if |ps| == 4 then X25519(c, ps[3].private, ps[3].public) == Ok(dh4) else dh4 == []
    ensures KeyMaterial(c, ps) == Ok(dh1 + dh2 + dh3 + dh4)
  {
    hide X25519, KeyMaterial;
    assert ps == [ps[0], ps[1], ps[2]] + ps[3..];
    MaterialInOrder(c, ps[0], ps[1], ps[2], ps[3..]);
    if |ps| == 3 {
      assert dh1 + dh2 + dh3 + dh4 == dh1 + dh2 + dh3;
    }
  }

  /** The outputs both sides concatenate, when every public key is valid. */
  lemma InitiatorMaterial(c: Curve, a: Bytes32, bundle: PreKeyBundle, e: Bytes32)
    requires Lawful(c) && LiftableBundle(c, bundle) && ValidBundleKeys(c, bundle)
    ensures var spk, ik := PointOf(c, bundle.signedPreKey.publicKey), PointOf(c, bundle.identityKey);
            KeyMaterial(c, InitiatorPairings(a, bundle, e)) ==
            Ok(Output(c, a, spk) + Output(c, e, ik) + Output(c, e, spk) +
               match bundle.oneTimePreKey {
                 case Some(opk) => Output(c, e, PointOf(c, opk.publicKey))
                 case None => []
               })
  {
    ValidOutput(c, a, bundle.signedPreKey.publicKey);
    ValidOutput(c, e, bundle.identityKey);
    ValidOutput(c, e, bundle.signedPreKey.publicKey);
    if bundle.oneTimePreKey.Some? {
      ValidOutput(c, e, bundle.oneTimePreKey.value.publicKey);
    }
    hide Lawful, KeyMaterial, X25519, Output, PointOf, Liftable, IsValidPublicKey;
    var spk, ik := PointOf(c, bundle.signedPreKey.publicKey), PointOf(c, bundle.identityKey);
    var dh4 := match bundle.oneTimePreKey {
      case Some(opk) => Output(c, e, PointOf(c, opk.publicKey))
      case None => []
    };
    MaterialOfOutputs(c, InitiatorPairings(a, bundle, e), Output(c, a, spk), Output(c, e, ik), Output(c, e, spk), dh4);
  }

  lemma ResponderMaterial(c: Curve, b: Bytes32, s: Bytes32, o: Option<Bytes32>, peer: Bytes33, peerEphemeral: Bytes33)
    requires Lawful(c) && Liftable(c, peer) && Liftable(c, peerEphemeral)
    requires IsValidPublicKey(c, peer) && IsValidPublicKey(c, peerEphemeral)
    ensures var ik, ek := PointOf(c, peer), PointOf(c, peerEphemeral);
            KeyMaterial(c, ResponderPairings(b, s, o, peer, peerEphemeral)) ==
            Ok(Output(c, s, ik) + Output(c, b, ek) + Output(c, s, ek) +
               match o {
                 case Some(opk) => Output(c, opk, ek)
                 case None => []
               })
  {
    ValidOutput(c, s, peer);
    ValidOutput(c, b, peerEphemeral);
    ValidOutput(c, s, peerEphemeral);
    if o.Some? {
      ValidOutput(c, o.value, peerEphemeral);
    }
    hide Lawful, KeyMaterial, X25519, Output, PointOf, Liftable, IsValidPublicKey;
    var ik, ek := PointOf(c, peer), PointOf(c, peerEphemeral);
    var dh4 := match o {
      case Some(opk) => Output(c, opk, ek)
      case None => []
    };
    MaterialOfOutputs(c, ResponderPairings(b, s, o, peer, peerEphemeral), Output(c, s, ik), Output(c, b, ek),
                      Output(c, s, ek), dh4);
  }

  /** Strings of 32-byte blocks are equal exactly when they agree block by block. */
  lemma BlocksEqual(x1: Bytes32, x2: Bytes32, x3: Bytes32, x4: seq<byte>,
                    y1: Bytes32, y2: Bytes32, y3: Bytes32, y4: seq<byte>)
    ensures x1 + x2 + x3 + x4 == y1 + y2 + y3 + y4 <==> x1 == y1 && x2 == y2 && x3 == y3 && x4 == y4
  {
    var x, y := x1 + x2 + x3 + x4, y1 + y2 + y3 + y4;
    assert x[..32] == x1 && x[32..64] == x2 && x[64..96] == x3 && x[96..] == x4;
    assert y[..32] == y1 && y[32..64] == y2 && y[64..96] == y3 && y[96..] == y4;
  }

  /** The keys the responder was given, and the one-time prekey it used, are those of the handshake. */
  predicate SameHandshake(c: Curve, a: Bytes32, e: Bytes32, o: Option<Bytes32>, peer: Bytes33, peerEphemeral: Bytes33,
                          o': Option<Bytes32>)
    requires Lawful(c)
  {
    && SamePeer(c, PointOf(c, peer), PointOf(c, PublicKey(c, a)))
    && SamePeer(c, PointOf(c, peerEphemeral), PointOf(c, PublicKey(c, e)))
    && match (o, o') {
         case (None, None) => true
         case (Some(x), Some(y)) => SamePeer(c, PointOf(c, PublicKey(c, y)), PointOf(c, PublicKey(c, x)))
         case (_, _) => false
       }
  }

  /** One pairing: the output the responder computes with its private key and the key it was given is the
      initiator's exactly when that key is the initiator's. */
  lemma PairingBinds(c: Curve, private: Bytes32, x: Bytes32, peer: Bytes33)
    requires Lawful(c) && Liftable(c, peer) && IsValidPublicKey(c, peer)
    ensures Output(c, private, PointOf(c, peer)) == Output(c, x, PointOf(c, PublicKey(c, private))) <==>
            SamePeer(c, PointOf(c, peer), PointOf(c, PublicKey(c, x)))
  {
    OwnKey(c, x);
    ValidOutput(c, private, peer);
    ValidOutput(c, private, PublicKey(c, x));
    OutputsAgree(c, x, private);
    hide Lawful, Output, PublicKey, PointOf, IsValidPublicKey, Liftable, SamePeer;
    OutputBinds(c, private, PointOf(c, peer), PointOf(c, PublicKey(c, x)));
  }

  /** The fourth pairing, once the ephemeral keys are known to agree. */
  lemma OneTimeBinds(c: Curve, e: Bytes32, o: Bytes32, o': Bytes32, peerEphemeral: Bytes33)
    requires Lawful(c) && Liftable(c, peerEphemeral) && IsValidPublicKey(c, peerEphemeral)
    requires SamePeer(c, PointOf(c, peerEphemeral), PointOf(c, PublicKey(c, e)))
    ensures Output(c, o', PointOf(c, peerEphemeral)) == Output(c, e, PointOf(c, PublicKey(c, o))) <==>
            SamePeer(c, PointOf(c, PublicKey(c, o')), PointOf(c, PublicKey(c, o)))
  {
    hide LawfulGroup, LawfulEdwards, LawfulHashes, LawfulMontgomery, Output, PublicKey, PointOf, IsValidPublicKey,
         Liftable, SamePeer;
    PairingBinds(c, o', e, peerEphemeral);
    OwnKey(c, o);
    OwnKey(c, o');
    ValidOutput(c, e, PublicKey(c, o));
    ValidOutput(c, e, PublicKey(c, o'));
    OutputBinds(c, e, PointOf(c, PublicKey(c, o')), PointOf(c, PublicKey(c, o)));
  }

  /** Both sides feed the same material to the KDF exactly when the responder's inputs name the initiator's keys
      and the one-time prekey of the bundle. */
  lemma MaterialBinds(c: Curve, bundle: PreKeyBundle, b: Bytes32, s: Bytes32, o: Option<Bytes32>, a: Bytes32,
                      e: Bytes32, o': Option<Bytes32>, peer: Bytes33, peerEphemeral: Bytes33)
    requires Lawful(c) && OwnedBy(c, bundle, b, s, o) && Liftable(c, peer) && Liftable(c, peerEphemeral)
    requires IsValidPublicKey(c, peer) && IsValidPublicKey(c, peerEphemeral)
    ensures var km, km' := KeyMaterial(c, InitiatorPairings(a, bundle, e)),
                           KeyMaterial(c, ResponderPairings(b, s, o', peer, peerEphemeral));
            km.Ok? && km'.Ok? && (km == km' <==> SameHandshake(c, a, e, o, peer, peerEphemeral, o'))
  {
    OwnedIsValid(c, bundle, b, s, o);
    InitiatorMaterial(c, a, bundle, e);
    ResponderMaterial(c, b, s, o', peer, peerEphemeral);
    hide Lawful, KeyMaterial, Output, PointOf, SamePeer, IsValidPublicKey, Liftable, PublicKey, InitiatorPairings,
         ResponderPairings;
    OwnLengths(c, a, s);
    OwnLengths(c, e, b);
    OwnLengths(c, e, s);
    ValidOutput(c, s, peer);
    ValidOutput(c, b, peerEphemeral);
    ValidOutput(c, s, peerEphemeral);
    PairingBinds(c, s, a, peer);
    PairingBinds(c, b, e, peerEphemeral);
    PairingBinds(c, s, e, peerEphemeral);
    var ik, ek := PointOf(c, peer), PointOf(c, peerEphemeral);
    var pb, ps := PointOf(c, PublicKey(c, b)), PointOf(c, PublicKey(c, s));
    var dh4 := if o.Some? then Output(c, e, PointOf(c, PublicKey(c, o.value))) else [];
    var dh4' := if o'.Some? then Output(c, o'.value, ek) else [];
    if o.Some? {
      OwnLengths(c, e, o.value);
    }
    if o'.Some? {
      ValidOutput(c, o'.value, peerEphemeral);
    }
    if o.Some? && o'.Some? && SamePeer(c, ek, PointOf(c, PublicKey(c, e))) {
      OneTimeBinds(c, e, o.value, o'.value, peerEphemeral);
    }
    BlocksEqual(Output(c, a, ps), Output(c, e, pb), Output(c, e, ps), dh4,
                Output(c, s, ik), Output(c, b, ek), Output(c, s, ek), dh4');
  }

  lemma OwnLengths(c: Curve, x: Bytes32, y: Bytes32)
    requires Lawful(c)
    ensures |Output(c, x, PointOf(c, PublicKey(c, y)))| == 32
  {
    OwnKey(c, y);
    ValidOutput(c, x, PublicKey(c, y));
  }

  // ---- Main results ----

  /** When the initiator goes on: exactly with valid keys and a signature that verifies. Decoding never fails
      after the checks. */
  lemma InitiatorAccepts(c: Curve, a: Bytes32, bundle: PreKeyBundle, e: Bytes32)
    requires Lawful(c) && LiftableBundle(c, bundle)
    ensures var r := Initiator(c, a, bundle, e);
            && (r == Err(InvalidKey) <==> !ValidBundleKeys(c, bundle))
            && (r.Ok? <==> ValidBundleKeys(c, bundle)
                           && Verify(c, bundle.identityKey, bundle.signedPreKey.publicKey,
                                     bundle.signedPreKey.signature).Some?)
            && (r.Err? ==> r.error == InvalidKey || r.error == InvalidSignature)
  {
    if ValidBundleKeys(c, bundle) {
      InitiatorMaterial(c, a, bundle, e);
    }
  }

  /** An honest handshake: the responder always computes a secret, and with a bundle whose prekey its owner signed
      the initiator computes the same one, with or without a one-time prekey. Only a message point equal to the
      identity makes the initiator refuse. */
  lemma HonestHandshake(c: Curve, bundle: PreKeyBundle, b: Bytes32, s: Bytes32, o: Option<Bytes32>, z: seq<byte>,
                        a: Bytes32, e: Bytes32)
    requires Lawful(c) && OwnedBy(c, bundle, b, s, o)
    requires var signed := Sign(c, b, PublicKey(c, s), z);
             signed.Ok? && bundle.signedPreKey.signature == signed.value.signature
    ensures LiftableBundle(c, bundle) && Liftable(c, PublicKey(c, a)) && Liftable(c, PublicKey(c, e))
    ensures var responder := Responder(c, b, s, o, PublicKey(c, a), PublicKey(c, e));
            && responder.Ok?
            && Initiator(c, a, bundle, e) ==
               if MessagePoint(c, c.compress(CalculateKeyPair(c, b).1), PublicKey(c, s)) == 0 then Err(InvalidSignature)
               else Ok(X3DHInitResult(responder.value, PublicKey(c, e)))
  {
    OwnedIsValid(c, bundle, b, s, o);
    OwnKey(c, a);
    OwnKey(c, e);
    SignedIsVerified(c, b, PublicKey(c, s), z);
    assert EncodePublicKey(PublicU(c, b)) == PublicKey(c, b) && EncodePublicKey(PublicU(c, e)) == PublicKey(c, e);
    hide Lawful, KeyMaterial, Mul, PointOf, IsValidPublicKey, Liftable, PublicKey, PublicU, MessagePoint, Sign, Verify,
         CalculateKeyPair;
    MaterialBinds(c, bundle, b, s, o, a, e, o, PublicKey(c, a), PublicKey(c, e));
  }

  /** HKDF does not collide on the two inputs that x and y become behind 32 bytes 0xFF. */
  predicate NoCollision(c: Curve, x: seq<byte>, y: seq<byte>) {
    c.hkdf(seq(32, _ => 0xFF) + x) == c.hkdf(seq(32, _ => 0xFF) + y) ==>
      seq(32, _ => 0xFF) + x == seq(32, _ => 0xFF) + y
  }

  /** The KDF tells materials apart as far as HKDF does. */
  lemma KdfBinds(c: Curve, x: seq<byte>, y: seq<byte>)
    requires NoCollision(c, x, y)
    ensures Kdf(c, x) == Kdf(c, y) <==> x == y
  {
    var f: seq<byte> := seq(32, _ => 0xFF);
    assert (f + x)[32..] == x && (f + y)[32..] == y;
  }

  /** The responder goes on exactly with two valid keys, and no other error occurs. */
  lemma ResponderAccepts(c: Curve, b: Bytes32, s: Bytes32, o: Option<Bytes32>, peer: Bytes33, peerEphemeral: Bytes33)
    requires Lawful(c) && Liftable(c, peer) && Liftable(c, peerEphemeral)
    ensures var r := Responder(c, b, s, o, peer, peerEphemeral);
            && (r.Ok? <==> IsValidPublicKey(c, peer) && IsValidPublicKey(c, peerEphemeral))
            && (r.Err? ==> r.error == InvalidKey)
  {
    if IsValidPublicKey(c, peer) && IsValidPublicKey(c, peerEphemeral) {
      ResponderMaterial(c, b, s, o, peer, peerEphemeral);
    }
  }

  /** Two bundles name the same keys, up to sign and small-order parts. */
  predicate SameBundle(c: Curve, bundle: PreKeyBundle, bundle': PreKeyBundle)
    requires c.l > 0
  {
    && SamePeer(c, PointOf(c, bundle.signedPreKey.publicKey), PointOf(c, bundle'.signedPreKey.publicKey))
    && SamePeer(c, PointOf(c, bundle.identityKey), PointOf(c, bundle'.identityKey))
    && match (bundle.oneTimePreKey, bundle'.oneTimePreKey) {
         case (None, None) => true
         case (Some(x), Some(y)) => SamePeer(c, PointOf(c, x.publicKey), PointOf(c, y.publicKey))
         case (_, _) => false
       }
  }

  /** The initiator's material names every key of the bundle. */
  lemma MaterialNamesBundle(c: Curve, a: Bytes32, e: Bytes32, bundle: PreKeyBundle, bundle': PreKeyBundle)
    requires Lawful(c) && LiftableBundle(c, bundle) && ValidBundleKeys(c, bundle)
    requires LiftableBundle(c, bundle') && ValidBundleKeys(c, bundle')
    ensures KeyMaterial(c, InitiatorPairings(a, bundle, e)) == KeyMaterial(c, InitiatorPairings(a, bundle', e)) <==>
            SameBundle(c, bundle, bundle')
  {
    InitiatorMaterial(c, a, bundle, e);
    InitiatorMaterial(c, a, bundle', e);
    BundleOutputs(c, a, e, bundle);
    BundleOutputs(c, a, e, bundle');
    hide Lawful, KeyMaterial, Output, PointOf, SamePeer, IsValidPublicKey, Liftable, InitiatorPairings;
    var s, s' := PointOf(c, bundle.signedPreKey.publicKey), PointOf(c, bundle'.signedPreKey.publicKey);
    var i, i' := PointOf(c, bundle.identityKey), PointOf(c, bundle'.identityKey);
    OutputBinds(c, a, s, s');
    OutputBinds(c, e, i, i');
    OutputBinds(c, e, s, s');
    var o, o' := bundle.oneTimePreKey, bundle'.oneTimePreKey;
    if o.Some? && o'.Some? {
      OutputBinds(c, e, PointOf(c, o.value.publicKey), PointOf(c, o'.value.publicKey));
    }
    BlocksEqual(Output(c, a, s), Output(c, e, i), Output(c, e, s),
                if o.Some? then Output(c, e, PointOf(c, o.value.publicKey)) else [],
                Output(c, a, s'), Output(c, e, i'), Output(c, e, s'),
                if o'.Some? then Output(c, e, PointOf(c, o'.value.publicKey)) else []);
  }

  lemma BundleOutputs(c: Curve, a: Bytes32, e: Bytes32, bundle: PreKeyBundle)
    requires Lawful(c) && LiftableBundle(c, bundle) && ValidBundleKeys(c, bundle)
    ensures var s, i := PointOf(c, bundle.signedPreKey.publicKey), PointOf(c, bundle.identityKey);
            && IsPoint(c, s) && s % c.l != 0 && IsPoint(c, i) && i % c.l != 0
            && |Output(c, a, s)| == 32 && |Output(c, e, i)| == 32 && |Output(c, e, s)| == 32
    ensures bundle.oneTimePreKey.Some? ==>
              var o := PointOf(c, bundle.oneTimePreKey.value.publicKey);
              IsPoint(c, o) && o % c.l != 0 && |Output(c, e, o)| == 32
  {
    hide Lawful, Output, PointOf, IsValidPublicKey, Liftable;
    ValidOutput(c, a, bundle.signedPreKey.publicKey);
    ValidOutput(c, e, bundle.identityKey);
    ValidOutput(c, e, bundle.signedPreKey.publicKey);
    if bundle.oneTimePreKey.Some? {
      ValidOutput(c, e, bundle.oneTimePreKey.value.publicKey);
    }
  }

  /** Unless HKDF collides, one initiator shares a secret with two accepted bundles exactly when they name the same
      keys: every key of the bundle enters the secret. */
  lemma SecretBindsBundle(c: Curve, a: Bytes32, e: Bytes32, bundle: PreKeyBundle, bundle': PreKeyBundle)
    requires Lawful(c) && LiftableBundle(c, bundle) && LiftableBundle(c, bundle')
    requires Initiator(c, a, bundle, e).Ok? && Initiator(c, a, bundle', e).Ok?
    requires var km, km' := KeyMaterial(c, InitiatorPairings(a, bundle, e)),
                            KeyMaterial(c, InitiatorPairings(a, bundle', e));
             km.Ok? && km'.Ok? ==> NoCollision(c, km.value, km'.value)
    ensures Initiator(c, a, bundle, e).value.sharedSecret == Initiator(c, a, bundle', e).value.sharedSecret <==>
            SameBundle(c, bundle, bundle')
  {
    hide Lawful, KeyMaterial, LiftableBundle, ValidBundleKeys, SameBundle, Verify, NoCollision, Kdf, InitiatorPairings;
    MaterialNamesBundle(c, a, e, bundle, bundle');
    KdfBinds(c, KeyMaterial(c, InitiatorPairings(a, bundle, e)).value,
             KeyMaterial(c, InitiatorPairings(a, bundle', e)).value);
  }

  /** Conversely the secret binds the handshake: unless HKDF collides on the two inputs, initiator and
      responder share a secret exactly when the responder was given the initiator's identity and ephemeral
      keys, up to sign and small-order parts, and used the one-time prekey of the bundle, if any. */
  lemma SecretBindsPeer(c: Curve, bundle: PreKeyBundle, b: Bytes32, s: Bytes32, o: Option<Bytes32>, a: Bytes32,
                        e: Bytes32, o': Option<Bytes32>, peer: Bytes33, peerEphemeral: Bytes33)
    requires Lawful(c) && OwnedBy(c, bundle, b, s, o) && Liftable(c, peer) && Liftable(c, peerEphemeral)
    requires LiftableBundle(c, bundle)
    requires Initiator(c, a, bundle, e).Ok? && Responder(c, b, s, o', peer, peerEphemeral).Ok?
    requires var km, km' := KeyMaterial(c, InitiatorPairings(a, bundle, e)),
                            KeyMaterial(c, ResponderPairings(b, s, o', peer, peerEphemeral));
             km.Ok? && km'.Ok? ==> NoCollision(c, km.value, km'.value)
    ensures Initiator(c, a, bundle, e).value.sharedSecret == Responder(c, b, s, o', peer, peerEphemeral).value <==>
            SameHandshake(c, a, e, o, peer, peerEphemeral, o')
  {
    hide Lawful, KeyMaterial, IsValidPublicKey, Liftable, SameHandshake, Verify, NoCollision, Kdf;
    MaterialBinds(c, bundle, b, s, o, a, e, o', peer, peerEphemeral);
    KdfBinds(c, KeyMaterial(c, InitiatorPairings(a, bundle, e)).value,
             KeyMaterial(c, ResponderPairings(b, s, o', peer, peerEphemeral)).value);
  }
}
