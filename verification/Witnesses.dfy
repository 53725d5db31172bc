/** Curves on which signatures are made, accepted, forked and refused, and a handshake that succeeds. */
module Witnesses {
  import opened Wrappers
  import opened Bytes
  import opened NumberTheory
  import opened Curve25519
  import opened KeyUtils
  import opened Vxeddsa
  import opened X3dh
  import CurveLaws

  /** The hash functions all return the number 1; every message is mapped to point before the cofactor is cleared. */
  function Sample(l: nat, point: int): Curve
    requires l > 0
  {
    CurveLaws.Example(l, point, ToLe(1, 64))
  }

  ghost predicate RightSize(l: nat) {
    Prime(l) && 16 * Pow256(31) < l < 32 * Pow256(31)
  }

  lemma SampleFacts(l: nat, point: int)
    requires RightSize(l) && 0 <= point < 2
    ensures var c := Sample(l, point);
            && Lawful(c) && c.l == l
            && (forall i, s :: HashScalar(c, i, s) == 1)
            && (forall a, m :: MessagePoint(c, a, m) == 8 * point)
  {
    CurveLaws.LawsAreConsistent(l, point, ToLe(1, 64));
    var c := Sample(l, point);
    LOdd(c);
    assert Pow256(64) > 1 by {
      assert Pow256(64) == 0x100 * Pow256(63);
    }
    LeRoundTrip(1, 64);
    ModSmall(1, l);
    Cofactor(c, point);
    ModSmall(point, l);
  }

  /** Every key signs every message, and the message point is known. */
  lemma SampleSigns(l: nat, point: int, k: Bytes32, message: seq<byte>, z: seq<byte>)
    requires RightSize(l) && 0 <= point < 2
    ensures var c := Sample(l, point);
            && Lawful(c) && Sign(c, k, message, z).Ok?
            && MessagePoint(c, c.compress(CalculateKeyPair(c, k).1), message) == 8 * point
  {
    SampleFacts(l, point);
    hide Sample, Lawful, RightSize, Prime, Pow256, HashScalar, MessagePoint, CalculateKeyPair, Sign;
    SignsUnlessZero(Sample(l, point), k, message, z);
  }

  lemma SignsUnlessZero(c: Curve, k: Bytes32, message: seq<byte>, z: seq<byte>)
    requires c.l > 0 && forall i, s :: HashScalar(c, i, s) > 0
    ensures Sign(c, k, message, z).Ok?
  {
    hide HashScalar, MessagePoint, CalculateKeyPair, Mul, Response, ScalarBytes, Vrf, ChallengeInput;
  }

  /** Some curve on which every key signs every message, whatever the randomness, and the signature is accepted. */
  lemma SignatureAccepted(l: nat, k: Bytes32, message: seq<byte>, z: seq<byte>)
    requires RightSize(l)
    ensures var c := Sample(l, 1);
            && Lawful(c) && Sign(c, k, message, z).Ok?
            && MessagePoint(c, c.compress(CalculateKeyPair(c, k).1), message) != 0
    ensures var c := Sample(l, 1);
            var pk, out := EncodePublicKey(PublicU(c, k)), Sign(c, k, message, z).value;
            && |pk| == 33 && |out.signature| == 96 && OnCurve(c, pk[1..])
            && Verify(c, pk, message, out.signature) == Some(out.vrf)
  {
    SampleSigns(l, 1, k, message, z);
    var c := Sample(l, 1);
    hide Sample, Lawful, RightSize, Prime, Pow256, Sign, MessagePoint, CalculateKeyPair, PublicU, Verify, Mul, OnCurve;
    SignedIsVerified(c, k, message, z);
  }

  /** On the same curve there are two accepting transcripts to extract from. */
  lemma TranscriptsForked(l: nat, k: Bytes32, message: seq<byte>, z: seq<byte>) returns (signature': seq<byte>)
    requires RightSize(l)
    ensures var c := Sample(l, 1);
            var pk := EncodePublicKey(PublicU(c, k));
            && Sign(c, k, message, z).Ok? && |pk| == 33
            && |Sign(c, k, message, z).value.signature| == |signature'| == 96
            && OnCurve(c, pk[1..])
            && Forked(c, Rewound(c, 0), pk, message, Sign(c, k, message, z).value.signature, signature')
  {
    SampleFacts(l, 1);
    SignatureAccepted(l, k, message, z);
    var c := Sample(l, 1);
    LOdd(c);
    hide Sample, RightSize, Prime, Pow256, MessagePoint, CalculateKeyPair, PublicU, Verify, Mul, OnCurve, Sign, Forked,
         Rewound, Lawful;
    var r, h := SignatureFields(c, k, message, z);
    FieldOf(c, h);
    signature' := HonestForks(c, k, message, z, 0);
  }

  /** Some curve on which every key signs every message and no signature is accepted: the message point is always the
      identity. */
  lemma SignatureRefused(l: nat, k: Bytes32, message: seq<byte>, z: seq<byte>)
    requires RightSize(l)
    ensures var c := Sample(l, 0);
            && Lawful(c) && Sign(c, k, message, z).Ok?
            && MessagePoint(c, c.compress(CalculateKeyPair(c, k).1), message) == 0
    ensures var c := Sample(l, 0);
            var pk, out := EncodePublicKey(PublicU(c, k)), Sign(c, k, message, z).value;
            && |pk| == 33 && |out.signature| == 96 && OnCurve(c, pk[1..])
            && Verify(c, pk, message, out.signature) == None
  {
    SampleSigns(l, 0, k, message, z);
    var c := Sample(l, 0);
    hide Sample, Lawful, RightSize, Prime, Pow256, Sign, MessagePoint, CalculateKeyPair, PublicU, Verify, Mul, OnCurve;
    SignedIsVerified(c, k, message, z);
  }

  /** A bundle with which a handshake succeeds, for every choice of keys. */
  lemma HandshakeSucceeds(l: nat, b: Bytes32, s: Bytes32, o: Option<Bytes32>, z: seq<byte>, a: Bytes32, e: Bytes32)
    returns (bundle: PreKeyBundle)
    requires RightSize(l)
    ensures var c := Sample(l, 1);
            && Lawful(c) && OwnedBy(c, bundle, b, s, o) && LiftableBundle(c, bundle)
            && Liftable(c, PublicKey(c, a)) && Liftable(c, PublicKey(c, e))
            && Sign(c, b, PublicKey(c, s), z).Ok?
            && bundle.signedPreKey.signature == Sign(c, b, PublicKey(c, s), z).value.signature
            && Initiator(c, a, bundle, e).Ok?
            && Responder(c, b, s, o, PublicKey(c, a), PublicKey(c, e)) ==
               Ok(Initiator(c, a, bundle, e).value.sharedSecret)
  {
    SampleFacts(l, 1);
    var c := Sample(l, 1);
    SampleSigns(l, 1, b, PublicKey(c, s), z);
    hide Sample, RightSize, Prime, Pow256, MessagePoint, CalculateKeyPair, PublicU, PublicKey, Verify, Mul, OnCurve,
         Sign, HashScalar, Initiator, Responder, Liftable, LiftableBundle, Lawful;
    bundle := Publish(c, b, s, o, Sign(c, b, PublicKey(c, s), z).value.signature);
    hide OwnedBy;
    HonestHandshake(c, bundle, b, s, o, z, a, e);
  }

  lemma Publish(c: Curve, b: Bytes32, s: Bytes32, o: Option<Bytes32>, signature: Bytes96) returns (bundle: PreKeyBundle)
    requires Lawful(c)
    ensures OwnedBy(c, bundle, b, s, o) && bundle.signedPreKey.signature == signature
  {
    hide Lawful, PublicKey;
    var opk := match o {
      case Some(private) => Some(OneTimePreKey(1, PublicKey(c, private)))
      case None => None
    };
    bundle := PreKeyBundle(PublicKey(c, b), SignedPreKey(1, PublicKey(c, s), signature), opk);
  }
}
