/** VXEdDSA signing and verification, and its verifiable random function. */
module Vxeddsa {
  import opened Wrappers
  import opened Bytes
  import opened NumberTheory
  import opened Curve25519
  import opened KeyUtils

  datatype VXEdDSAError = InvalidScalar

  datatype VXEdDSAOutput = VXEdDSAOutput(signature: seq<byte>, vrf: seq<byte>)

  /** Scalar::from_bytes_mod_order_wide of hash_i. */
  function HashScalar(c: Curve, i: nat, s: seq<byte>): nat
    requires c.l > 0
  {
    FromLe(c.hash(i, s)) % c.l
  }

  /** Scalar::to_bytes */
  function ScalarBytes(n: nat): (s: seq<byte>)
    ensures |s| == 32
  {
    ToLe(n, 32)
  }

  /** Scalar::from_canonical_bytes */
  function CanonicalScalar(c: Curve, s: seq<byte>): Option<nat> {
    if FromLe(s) < c.l then Some(FromLe(s)) else None
  }

  /** The point a message is signed against: hashed to the curve and cleared of its small-order part. */
  function MessagePoint(c: Curve, aBytes: seq<byte>, message: seq<byte>): int
    requires c.l > 0
  {
    Mul(c, 8, c.hashToPoint(aBytes + message))
  }

  /** The first 32 bytes of the hash of the cofactor multiple of V. */
  function Vrf(c: Curve, V: int): seq<byte>
    requires c.l > 0
  {
    var full := c.hash(5, c.compress(Mul(c, 8, V)));
    if |full| >= 32 then full[..32] else full
  }

  function ChallengeInput(c: Curve, A: int, vBytes: seq<byte>, R: int, Rv: int, message: seq<byte>): seq<byte> {
    c.compress(A) + vBytes + c.compress(R) + c.compress(Rv) + message
  }

  /** The scalar of the commitments: the hash of the secret scalar, V and the randomness. */
  function SigningNonce(c: Curve, a: nat, vBytes: seq<byte>, z: seq<byte>): nat
    requires c.l > 0
  {
    HashScalar(c, 3, ScalarBytes(a) + vBytes + z)
  }

  /** The response to challenge h: the scalar r + h * a. */
  function Response(c: Curve, r: int, h: int, a: int): nat
    requires c.l > 0
  {
    (r + h * a) % c.l
  }

  /** vxeddsa_sign, with the 64 random bytes it draws. */
  function Sign(c: Curve, k: Bytes32, message: seq<byte>, z: seq<byte>): Result<VXEdDSAOutput, VXEdDSAError>
    requires c.l > 0
  {
    var (a, A) := CalculateKeyPair(c, k);
    var bv := MessagePoint(c, c.compress(A), message);
    var V := Mul(c, a, bv);
    var vBytes := c.compress(V);
    var r := SigningNonce(c, if a >= 0 then a else 0, vBytes, z);
    if r == 0 then Err(InvalidScalar)
    else
      var h := HashScalar(c, 4, ChallengeInput(c, A, vBytes, Mul(c, r, B), Mul(c, r, bv), message));
      var s := Response(c, r, h, a);
      Ok(VXEdDSAOutput(vBytes + ScalarBytes(h) + ScalarBytes(s), Vrf(c, V)))
  }

  /** What the verifier reads from its inputs: the points A and V, the scalars h and s, the message point, and
      the commitments it recomputes from them. */
  datatype Transcript = Transcript(A: int, V: int, vBytes: seq<byte>, h: nat, s: nat, bv: int, R: int, Rv: int)

  /** vxeddsa_verify up to the comparison of the challenge; None where the verifier gives up. */
  function Recompute(c: Curve, publicKey: seq<byte>, message: seq<byte>, signature: seq<byte>): Option<Transcript>
    requires c.l > 0 && |publicKey| == 33 && |signature| == 96
    requires publicKey[0] == 0x05 ==> OnCurve(c, publicKey[1..])
  {
    var h := CanonicalScalar(c, signature[32..64]);
    var s := CanonicalScalar(c, signature[64..96]);
    var V := c.decompress(signature[0..32]);
    if h.None? || s.None? || DecodePublicKey(publicKey).Err? || V.None? then None
    else
      var A := ConvertMont(c, DecodePublicKey(publicKey).value);
      var bv := MessagePoint(c, c.compress(A), message);
      if Mul(c, 8, A) == 0 || Mul(c, 8, V.value) == 0 || bv == 0 then None
      else
        Some(Transcript(A, V.value, signature[0..32], h.value, s.value, bv,
                        Sub(c, Mul(c, s.value, B), Mul(c, h.value, A)),
                        Sub(c, Mul(c, s.value, bv), Mul(c, h.value, V.value))))
  }

  /** vxeddsa_verify */
  function Verify(c: Curve, publicKey: seq<byte>, message: seq<byte>, signature: seq<byte>): Option<seq<byte>>
    requires c.l > 0 && |publicKey| == 33 && |signature| == 96
    requires publicKey[0] == 0x05 ==> OnCurve(c, publicKey[1..])
  {
    match Recompute(c, publicKey, message, signature) {
      case None => None
      case Some(t) =>
        if t.h != HashScalar(c, 4, ChallengeInput(c, t.A, t.vBytes, t.R, t.Rv, message)) then None
        else Some(Vrf(c, t.V))
    }
  }

  // ---- The implementations ----

  /** vxeddsa_sign: the byte buffers are filled in order, the signature in place. */
  method VxeddsaSign(c: Curve, k: Bytes32, message: seq<byte>, z: seq<byte>)
    returns (out: Result<VXEdDSAOutput, VXEdDSAError>)
    requires Lawful(c)
    ensures out == Sign(c, k, message, z)
  {
    KeyPairMatchesPublicKey(c, k);
    assert c.l > 0;
    hide Lawful, Mul, SignBit, HashScalar, ScalarBytes, ChallengeInput, MessagePoint, Response, Vrf, CalculateKeyPair,
         PublicU, IsPoint;
    var (a, A) := CalculateKeyPair(c, k);
    var bv := HashToSubgroup(c, A, message);
    var V := Mul(c, a, bv);
    var vBytes := c.compress(V);
    var r := NonceScalar(c, a, vBytes, z);
    if r == 0 {
      return Err(InvalidScalar);
    }
    var h := HashChallenge(c, A, vBytes, Mul(c, r, B), Mul(c, r, bv), message);
    var s := Response(c, r, h, a);
    var v := Vrf(c, V);
    CompressedLength(c, a, bv);
    var signature := AssembleSignature(vBytes, ScalarBytes(h), ScalarBytes(s));
    out := Ok(VXEdDSAOutput(signature, v));
  }

  /** The message point, hashed from one buffer. */
  method HashToSubgroup(c: Curve, A: int, message: seq<byte>) returns (bv: int)
    requires c.l > 0
    ensures bv == MessagePoint(c, c.compress(A), message)
  {
    var pointMsg := [];
    pointMsg := pointMsg + c.compress(A);
    pointMsg := pointMsg + message;
    assert pointMsg == c.compress(A) + message;
    bv := Mul(c, 8, c.hashToPoint(pointMsg));
  }

  /** The nonce scalar, hashed from the secret scalar, V and the randomness. */
  method NonceScalar(c: Curve, a: nat, vBytes: seq<byte>, z: seq<byte>) returns (r: nat)
    requires c.l > 0
    ensures r == SigningNonce(c, a, vBytes, z)
  {
    var rMsg := [];
    rMsg := rMsg + ScalarBytes(a);
    rMsg := rMsg + vBytes;
    rMsg := rMsg + z;
    assert rMsg == ScalarBytes(a) + vBytes + z;
    r := HashScalar(c, 3, rMsg);
  }

  /** The challenge: the hash of the points and the message, appended to one buffer. */
  method HashChallenge(c: Curve, A: int, vBytes: seq<byte>, R: int, Rv: int, message: seq<byte>) returns (h: nat)
    requires c.l > 0
    ensures h == HashScalar(c, 4, ChallengeInput(c, A, vBytes, R, Rv, message))
  {
    var hMsg := [];
    hMsg := hMsg + c.compress(A);
    hMsg := hMsg + vBytes;
    hMsg := hMsg + c.compress(R);
    hMsg := hMsg + c.compress(Rv);
    hMsg := hMsg + message;
    assert hMsg == ChallengeInput(c, A, vBytes, R, Rv, message);
    h := HashScalar(c, 4, hMsg);
  }

  lemma CompressedLength(c: Curve, n: int, p: int)
    requires Lawful(c)
    ensures |c.compress(Mul(c, n, p))| == 32
  {
    MulIsPoint(c, n, p);
    assert EdwardsAt(c, Mul(c, n, p));
  }

  /** The 96 signature bytes, copied into place. */
  method AssembleSignature(vBytes: Bytes32, hBytes: Bytes32, sBytes: Bytes32) returns (signature: seq<byte>)
    ensures signature == vBytes + hBytes + sBytes
  {
    var bytes := new byte[96](_ => 0);
    forall i | 0 <= i < 32 { bytes[i] := vBytes[i]; }
    forall i | 32 <= i < 64 { bytes[i] := hBytes[i - 32]; }
    forall i | 64 <= i < 96 { bytes[i] := sBytes[i - 64]; }
    signature := bytes[..];
  }

  /** vxeddsa_verify */
  method VxeddsaVerify(c: Curve, publicKey: seq<byte>, message: seq<byte>, signature: seq<byte>)
    returns (vrf: Option<seq<byte>>)
    requires c.l > 0 && |publicKey| == 33 && |signature| == 96
    requires publicKey[0] == 0x05 ==> OnCurve(c, publicKey[1..])
    ensures vrf == Verify(c, publicKey, message, signature)
  {
    var vBytes, hBytes, sBytes := signature[0..32], signature[32..64], signature[64..96];
    var h := CanonicalScalar(c, hBytes);
    if h.None? {
      return None;
    }
    var s := CanonicalScalar(c, sBytes);
    if s.None? {
      return None;
    }
    var decoded := DecodePublicKey(publicKey);
    if decoded.Err? {
      return None;
    }
    var A := ConvertMont(c, decoded.value);
    var V := c.decompress(vBytes);
    if V.None? {
      return None;
    }
    var bv := HashToSubgroup(c, A, message);
    if Mul(c, 8, A) == 0 || Mul(c, 8, V.value) == 0 || bv == 0 {
      return None;
    }
    var R := Sub(c, Mul(c, s.value, B), Mul(c, h.value, A));
    var Rv := Sub(c, Mul(c, s.value, bv), Mul(c, h.value, V.value));
    var hcheck := HashChallenge(c, A, vBytes, R, Rv, message);
    if h.value != hcheck {
      return None;
    }
    vrf := Some(Vrf(c, V.value));
  }

  // ---- Completeness ----

  lemma ScalarRoundTrip(c: Curve, n: nat)
    requires LawfulGroup(c) && n < c.l
    ensures CanonicalScalar(c, ScalarBytes(n)) == Some(n)
  {
    assert Pow256(32) == 0x100 * Pow256(31);
    LeRoundTrip(n, 32);
  }

  /** s = r + h * a recomputes the commitment: s * P - h * (a * P) is r * P in the subgroup of order l. */
  lemma CommitmentRecomputed(c: Curve, r: int, h: int, a: int, p: int)
    requires c.l > 0 && p % 8 == 0
    ensures Sub(c, Mul(c, Response(c, r, h, a), p), Mul(c, h, Mul(c, a, p))) == Mul(c, r, p)
  {
    MulModL(c, r + h * a, p);
    MulMul(c, h, a, p);
    MulSub(c, r + h * a, h * a, p);
    assert (r + h * a) - h * a == r;
  }

  lemma MessagePointInSubgroup(c: Curve, aBytes: seq<byte>, message: seq<byte>)
    requires LawfulGroup(c)
    ensures var bv := MessagePoint(c, aBytes, message);
            IsPoint(c, bv) && bv % 8 == 0 && (bv % c.l == 0 <==> bv == 0)
  {
    hide Prime, Pow256;
    var p := c.hashToPoint(aBytes + message);
    var bv := MessagePoint(c, aBytes, message);
    Cofactor(c, p);
    MulIsPoint(c, 8, p);
    EightIsUnit(c);
    var r := p % c.l;
    assert bv == 8 * r;
    if bv % c.l == 0 {
      PrimeDividesFactor(c.l, 8, r);
      ModSmall(r, c.l);
    } else {
      ModSmall(0, c.l);
    }
  }

  /** On a well-formed signature with s = r + h * a the verifier recomputes the signer's own commitments. */
  lemma RecomputesCommitments(c: Curve, pk: seq<byte>, message: seq<byte>, signature: seq<byte>, a: nat, r: nat, h: nat)
    requires Lawful(c) && |pk| == 33 && |signature| == 96 && pk[0] == 0x05 && OnCurve(c, pk[1..])
    requires ConvertMont(c, pk[1..]) == Mul(c, a, B) && 0 < a < c.l && h < c.l
    requires var V := Mul(c, a, MessagePoint(c, c.compress(Mul(c, a, B)), message));
             signature[0..32] == c.compress(V)
    requires signature[32..64] == ScalarBytes(h) && signature[64..96] == ScalarBytes(Response(c, r, h, a))
    ensures var A := Mul(c, a, B);
            var bv := MessagePoint(c, c.compress(A), message);
            var V := Mul(c, a, bv);
            Recompute(c, pk, message, signature) ==
            if bv == 0 then None
            else Some(Transcript(A, V, c.compress(V), h, Response(c, r, h, a), bv, Mul(c, r, B), Mul(c, r, bv)))
  {
    var A := Mul(c, a, B);
    MessagePointInSubgroup(c, c.compress(A), message);
    hide Prime, Pow256, Mul, Sub, Neg, ScalarBytes, CanonicalScalar, LawfulMontgomery, LawfulHashes, FromLe,
         MessagePoint, ConvertMont, OnCurve;
    var bv := MessagePoint(c, c.compress(A), message);
    var V := Mul(c, a, bv);
    MulIsPoint(c, a, bv);
    assert EdwardsAt(c, V);
    ScalarRoundTrip(c, h);
    ScalarRoundTrip(c, Response(c, r, h, a));
    CommitmentRecomputed(c, r, h, a, B);
    CommitmentRecomputed(c, r, h, a, bv);
    ModSmall(a, c.l);
    CofactorOfMultiple(c, a, bv);
    BaseNotIdentity(c, a);
  }

  /** The three fields of a signature, read back from its bytes: s = r + h * a for the nonce scalar r, with h the
      hash of the commitments to r. */
  lemma SignatureFields(c: Curve, k: Bytes32, message: seq<byte>, z: seq<byte>) returns (r: nat, h: nat)
    requires Lawful(c) && Sign(c, k, message, z).Ok?
    ensures var (a, A) := CalculateKeyPair(c, k);
            var signature := Sign(c, k, message, z).value.signature;
            var bv := MessagePoint(c, c.compress(A), message);
            var V := Mul(c, a, bv);
            && 0 < r == SigningNonce(c, a, c.compress(V), z) && h < c.l && 0 < a < c.l && |signature| == 96
            && signature[0..32] == c.compress(V)
            && signature[32..64] == ScalarBytes(h) && signature[64..96] == ScalarBytes(Response(c, r, h, a))
            && h == HashScalar(c, 4, ChallengeInput(c, A, c.compress(V), Mul(c, r, B), Mul(c, r, bv), message))
            && Sign(c, k, message, z).value.vrf == Vrf(c, V)
  {
    KeyPairMatchesPublicKey(c, k);
    hide Prime, Pow256, Mul, Sub, Neg, Response, CalculateKeyPair, HashScalar, ScalarBytes, Vrf, ChallengeInput,
         LawfulGroup, LawfulMontgomery, LawfulHashes, FromLe, MessagePoint, PublicU;
    var (a, A) := CalculateKeyPair(c, k);
    var bv := MessagePoint(c, c.compress(A), message);
    var V := Mul(c, a, bv);
    MulIsPoint(c, a, bv);
    assert EdwardsAt(c, V);
    var vBytes := c.compress(V);
    r := SigningNonce(c, a, vBytes, z);
    var input := ChallengeInput(c, A, vBytes, Mul(c, r, B), Mul(c, r, bv), message);
    h := HashScalar(c, 4, input);
    HashScalarBelow(c, 4, input);
    var signature := vBytes + ScalarBytes(h) + ScalarBytes(Response(c, r, h, a));
    assert signature[0..32] == vBytes && signature[32..64] == ScalarBytes(h)
        && signature[64..96] == ScalarBytes(Response(c, r, h, a));
  }

  /** Completeness: a signature made with key k is accepted under its public key exactly when the message
      point is not the identity, and the verifier then returns the signer's VRF output. */
  lemma SignedIsVerified(c: Curve, k: Bytes32, message: seq<byte>, z: seq<byte>)
    requires Lawful(c) && Sign(c, k, message, z).Ok?
    ensures var pk, out := EncodePublicKey(PublicU(c, k)), Sign(c, k, message, z).value;
            && |pk| == 33 && |out.signature| == 96 && pk[0] == 0x05 && OnCurve(c, pk[1..])
            && Verify(c, pk, message, out.signature) ==
               if MessagePoint(c, c.compress(CalculateKeyPair(c, k).1), message) == 0 then None else Some(out.vrf)
  {
    GeneratedKeyIsValid(c, k);
    KeyPairMatchesPublicKey(c, k);
    var r, h := SignatureFields(c, k, message, z);
    hide Sign, Response, Prime, Pow256, Mul, Sub, Neg, CalculateKeyPair, HashScalar, ScalarBytes, Recompute, Vrf,
         ChallengeInput, LawfulGroup, LawfulEdwards, LawfulMontgomery, LawfulHashes, FromLe, MessagePoint,
         ConvertMont, OnCurve, PublicU;
    var (a, A) := CalculateKeyPair(c, k);
    var u, pk := PublicU(c, k), EncodePublicKey(PublicU(c, k));
    assert pk[1..] == u;
    RecomputesCommitments(c, pk, message, Sign(c, k, message, z).value.signature, a, r, h);
  }

  lemma HashScalarBelow(c: Curve, i: nat, s: seq<byte>)
    requires c.l > 0
    ensures HashScalar(c, i, s) < c.l
  {
  }

  lemma BaseNotIdentity(c: Curve, a: int)
    requires LawfulGroup(c) && 0 < a < c.l
    ensures Mul(c, 8, Mul(c, a, B)) != 0
  {
    hide Prime, Pow256, Mul;
    ModSmall(a, c.l);
    CofactorOfMultiple(c, a, B);
    EightIsUnit(c);
  }

  /** The VRF output of a key and a message does not depend on the randomness of the signature: whatever
      was drawn, the verifier reports the same output. */
  lemma VrfIndependentOfNonce(c: Curve, k: Bytes32, message: seq<byte>, z: seq<byte>, z': seq<byte>)
    requires Lawful(c) && Sign(c, k, message, z).Ok? && Sign(c, k, message, z').Ok?
    ensures var pk := EncodePublicKey(PublicU(c, k));
            var s, s' := Sign(c, k, message, z).value.signature, Sign(c, k, message, z').value.signature;
            && |pk| == 33 && |s| == |s'| == 96 && OnCurve(c, pk[1..])
            && Verify(c, pk, message, s) == Verify(c, pk, message, s')
  {
    SignedIsVerified(c, k, message, z);
    SignedIsVerified(c, k, message, z');
  }

  // ---- Uniqueness of the VRF output ----

  /** Two accepting runs of the verifier on one key and message that share V and both commitments but not the
      challenge. The challenges come from two hash functions: one prover, rewound. */
  ghost predicate Forked(c: Curve, g: (nat, seq<byte>) -> seq<byte>, publicKey: seq<byte>, message: seq<byte>,
                         signature: seq<byte>, signature': seq<byte>)
    requires c.l > 0 && |publicKey| == 33 && |signature| == 96 && |signature'| == 96
    requires publicKey[0] == 0x05 ==> OnCurve(c, publicKey[1..])
  {
    && OnCurveStill(c, g, publicKey)
    && Verify(c, publicKey, message, signature).Some?
    && Verify(c.(hash := g), publicKey, message, signature').Some?
    && var t, t' := Recompute(c, publicKey, message, signature).value,
                    Recompute(c.(hash := g), publicKey, message, signature').value;
       t.V == t'.V && t.R == t'.R && t.Rv == t'.Rv && t.h != t'.h
  }

  predicate OnCurveStill(c: Curve, g: (nat, seq<byte>) -> seq<byte>, publicKey: seq<byte>)
    requires |publicKey| == 33
  {
    publicKey[0] == 0x05 ==> OnCurve(c.(hash := g), publicKey[1..])
  }

  /** The hash functions of c with every challenge answered by h. */
  function Rewound(c: Curve, h: nat): (nat, seq<byte>) -> seq<byte> {
    (i, s) => if i == 4 then ToLe(h, 64) else c.hash(i, s)
  }

  lemma {:induction false} Pow256Grows(m: nat, n: nat)
    requires m <= n
    ensures Pow256(m) <= Pow256(n)
  {
    if m < n {
      Pow256Grows(m, n - 1);
    }
  }

  lemma RewoundChallenge(c: Curve, h: nat, s: seq<byte>)
    requires LawfulGroup(c) && h < c.l
    ensures HashScalar(c.(hash := Rewound(c, h)), 4, s) == h
  {
    assert Pow256(32) == 0x100 * Pow256(31);
    Pow256Grows(32, 64);
    hide Pow256, Prime;
    LeRoundTrip(h, 64);
    ModSmall(h, c.l);
  }

  /** What the verifier recomputes does not depend on the hash functions. */
  lemma RecomputeIgnoresHash(c: Curve, g: (nat, seq<byte>) -> seq<byte>, publicKey: seq<byte>, message: seq<byte>,
                             signature: seq<byte>)
    requires c.l > 0 && |publicKey| == 33 && |signature| == 96
    requires publicKey[0] == 0x05 ==> OnCurve(c, publicKey[1..])
    ensures OnCurveStill(c, g, publicKey)
    ensures Recompute(c.(hash := g), publicKey, message, signature) == Recompute(c, publicKey, message, signature)
  {
    hide FromLe, IsPoint;
  }

  /** The honest signer can be rewound: it answers any second challenge h' on the commitments it has already
      made, so Forked can be met from every honest signature that verifies. */
  lemma HonestForks(c: Curve, k: Bytes32, message: seq<byte>, z: seq<byte>, h': nat) returns (signature': seq<byte>)
    requires Lawful(c) && Sign(c, k, message, z).Ok? && h' < c.l
    requires MessagePoint(c, c.compress(CalculateKeyPair(c, k).1), message) != 0
    ensures var pk, signature := EncodePublicKey(PublicU(c, k)), Sign(c, k, message, z).value.signature;
            && |pk| == 33 && |signature| == |signature'| == 96 && OnCurve(c, pk[1..])
            && (FromLe(signature[32..64]) != h' ==> Forked(c, Rewound(c, h'), pk, message, signature, signature'))
  {
    GeneratedKeyIsValid(c, k);
    KeyPairMatchesPublicKey(c, k);
    SignedIsVerified(c, k, message, z);
    var r, h := SignatureFields(c, k, message, z);
    hide Lawful, Sign, Response, Prime, Pow256, Mul, Sub, Neg, CalculateKeyPair, HashScalar, ScalarBytes, Recompute,
         Vrf, ChallengeInput, FromLe, MessagePoint, Rewound, OnCurve, ConvertMont, CanonicalScalar;
    var (a, A) := CalculateKeyPair(c, k);
    var pk, signature := EncodePublicKey(PublicU(c, k)), Sign(c, k, message, z).value.signature;
    assert pk[1..] == PublicU(c, k);
    signature' := signature[..32] + ScalarBytes(h') + ScalarBytes(Response(c, r, h', a));
    assert signature'[0..32] == signature[0..32] && signature'[32..64] == ScalarBytes(h')
        && signature'[64..96] == ScalarBytes(Response(c, r, h', a));
    RecomputesCommitments(c, pk, message, signature, a, r, h);
    RecomputesCommitments(c, pk, message, signature', a, r, h');
    FieldOf(c, h);
    AcceptsRewound(c, pk, message, signature', h');
  }

  lemma FieldOf(c: Curve, h: nat)
    requires Lawful(c) && h < c.l
    ensures FromLe(ScalarBytes(h)) == h
  {
    ScalarRoundTrip(c, h);
  }

  lemma AcceptsRewound(c: Curve, pk: seq<byte>, message: seq<byte>, signature: seq<byte>, h: nat)
    requires Lawful(c) && |pk| == 33 && |signature| == 96 && h < c.l
    requires pk[0] == 0x05 ==> OnCurve(c, pk[1..])
    requires Recompute(c, pk, message, signature).Some? && Recompute(c, pk, message, signature).value.h == h
    ensures OnCurveStill(c, Rewound(c, h), pk)
    ensures Verify(c.(hash := Rewound(c, h)), pk, message, signature).Some?
    ensures Recompute(c.(hash := Rewound(c, h)), pk, message, signature) == Recompute(c, pk, message, signature)
  {
    var c' := c.(hash := Rewound(c, h));
    RecomputeIgnoresHash(c, Rewound(c, h), pk, message, signature);
    var t := Recompute(c, pk, message, signature).value;
    RewoundChallenge(c, h, ChallengeInput(c', t.A, t.vBytes, t.R, t.Rv, message));
    hide Rewound, Recompute, HashScalar, ChallengeInput, OnCurve;
  }

  lemma CommonCommitment(c: Curve, s: int, h: int, s': int, h': int, p: int, q: int) returns (k: int)
    requires c.l > 0
    requires Sub(c, Mul(c, s, p), Mul(c, h, q)) == Sub(c, Mul(c, s', p), Mul(c, h', q))
    ensures (s - s') * p - (h - h') * q == 8 * c.l * k
  {
    SubResidues(c, s * p, h * q);
    SubResidues(c, s' * p, h' * q);
    k := SameResidue(s * p - h * q, s' * p - h' * q, 8 * c.l);
    assert (s - s') * p == s * p - s' * p && (h - h') * q == h * q - h' * q;
  }

  /** With u the inverse of the difference of the challenges, 8q is a known multiple of 8p. */
  lemma ExtractedMultiple(c: Curve, d: int, e: int, p: int, q: int, k: int, u: int, t: int)
    requires c.l > 0 && d * p - e * q == 8 * c.l * k && u * e == 1 + c.l * t
    ensures Mul(c, 8, q) == Mul(c, (u * d) % c.l, Mul(c, 8, p))
  {
    Cofactor(c, p);
    MulModL(c, u * d, Mul(c, 8, p));
    MulMul(c, u * d, 8, p);
    MultipleResidue(c.l, d, e, p, q, k, u, t);
  }

  lemma MultipleResidue(l: nat, d: int, e: int, p: int, q: int, k: int, u: int, t: int)
    requires l > 0 && d * p - e * q == 8 * l * k && u * e == 1 + l * t
    ensures (8 * q) % (8 * l) == ((u * d * 8) * p) % (8 * l)
  {
    var n := 8 * l;
    assert u * (e * q) == q + l * t * q by {
      assert (u * e) * q == (1 + l * t) * q;
      assert u * (e * q) == (u * e) * q;
    }
    assert u * (d * p) - u * (e * q) == n * (u * k) by {
      assert u * (d * p - e * q) == u * (d * p) - u * (e * q);
      assert u * (n * k) == n * (u * k);
    }
    assert 8 * (l * t * q) == n * (t * q);
    assert (u * d * 8) * p == 8 * (u * (d * p));
    assert n * (t * q + 8 * (u * k)) == n * (t * q) + n * (8 * (u * k));
    assert (u * d * 8) * p - 8 * q == n * (t * q + 8 * (u * k));
    ResidueFrom((u * d * 8) * p, 8 * q, n, t * q + 8 * (u * k));
  }

  /** Special soundness: from two accepting runs with different challenges one scalar can be computed that is
      the discrete logarithm, up to the cofactor, both of the public key and of V. */
  lemma Extract(c: Curve, g: (nat, seq<byte>) -> seq<byte>, publicKey: seq<byte>, message: seq<byte>,
                signature: seq<byte>, signature': seq<byte>)
    returns (x: nat)
    requires LawfulGroup(c) && |publicKey| == 33 && |signature| == 96 && |signature'| == 96
    requires publicKey[0] == 0x05 ==> OnCurve(c, publicKey[1..])
    requires Forked(c, g, publicKey, message, signature, signature')
    ensures x < c.l
    ensures var t := Recompute(c, publicKey, message, signature).value;
            Mul(c, 8, t.A) == Mul(c, x, Mul(c, 8, B)) && Mul(c, 8, t.V) == Mul(c, x, Mul(c, 8, t.bv))
  {
    hide Prime, Pow256, FromLe, HashScalar, ChallengeInput, Mul, Sub, Vrf;
    var t, t' := Recompute(c, publicKey, message, signature).value,
                 Recompute(c.(hash := g), publicKey, message, signature').value;
    SameGroup(c, g, t, t');
    assert t.bv == t'.bv && t.A == t'.A;
    var k := CommonCommitment(c, t.s, t.h, t'.s, t'.h, B, t.A);
    var k' := CommonCommitment(c, t.s, t.h, t'.s, t'.h, t.bv, t.V);
    var d, e := t.s - t'.s, t.h - t'.h;
    if e % c.l == 0 {
      var m := SameResidue(e, 0, c.l);
      SmallMultiple(c.l, m);
    }
    var u, w := Inverse(c.l, e);
    ExtractedMultiple(c, d, e, B, t.A, k, u, w);
    ExtractedMultiple(c, d, e, t.bv, t.V, k', u, w);
    x := (u * d) % c.l;
  }

  /** Changing the hash function changes nothing in the group. */
  lemma SameGroup(c: Curve, g: (nat, seq<byte>) -> seq<byte>, t: Transcript, t': Transcript)
    requires c.l > 0
    ensures forall n, p :: Mul(c.(hash := g), n, p) == Mul(c, n, p)
    ensures forall p, q :: Sub(c.(hash := g), p, q) == Sub(c, p, q)
  {
  }

  lemma SmallDifference(l: nat, x: nat, y: nat)
    requires Prime(l) && 8 % l != 0 && x < l && y < l
    requires (x * 64) % (8 * l) == (y * 64) % (8 * l)
    ensures x == y
  {
    hide Prime;
    var k := SameResidue(x * 64, y * 64, 8 * l);
    assert 8 * l * k == 8 * (l * k);
    assert 8 * (x - y) == l * k;
    ModShift(0, k, l);
    PrimeDividesFactor(l, 8, x - y);
    var m := SameResidue(x - y, 0, l);
    SmallMultiple(l, m);
  }

  /** The scalar is determined by the public key. */
  lemma LogarithmUnique(c: Curve, x: nat, y: nat)
    requires LawfulGroup(c) && x < c.l && y < c.l
    requires Mul(c, x, Mul(c, 8, B)) == Mul(c, y, Mul(c, 8, B))
    ensures x == y
  {
    LOdd(c);
    hide Prime, Pow256;
    Cofactor(c, B);
    ModSmall(8, c.l);
    EightIsUnit(c);
    SmallDifference(c.l, x, y);
  }

  /** VRF uniqueness: all signatures that can be extracted from for one key and message yield one VRF output,
      small-order components in the key or in V notwithstanding. */
  lemma VrfUnique(c: Curve, g: (nat, seq<byte>) -> seq<byte>, f: (nat, seq<byte>) -> seq<byte>,
                  publicKey: seq<byte>, message: seq<byte>,
                  s1: seq<byte>, s1': seq<byte>, s2: seq<byte>, s2': seq<byte>)
    requires LawfulGroup(c) && |publicKey| == 33 && |s1| == 96 && |s1'| == 96 && |s2| == 96 && |s2'| == 96
    requires publicKey[0] == 0x05 ==> OnCurve(c, publicKey[1..])
    requires Forked(c, g, publicKey, message, s1, s1') && Forked(c, f, publicKey, message, s2, s2')
    ensures Verify(c, publicKey, message, s1) == Verify(c, publicKey, message, s2)
  {
    var x := Extract(c, g, publicKey, message, s1, s1');
    var y := Extract(c, f, publicKey, message, s2, s2');
    hide Prime, Pow256, FromLe, HashScalar, ChallengeInput, Mul, Sub, LawfulGroup, OnCurveStill;
    LogarithmUnique(c, x, y);
  }

  /** And under a key made by the library that output is the one its owner computes. */
  lemma VrfIsTheOwners(c: Curve, g: (nat, seq<byte>) -> seq<byte>, k: Bytes32, message: seq<byte>, z: seq<byte>,
                       s1: seq<byte>, s1': seq<byte>)
    requires Lawful(c) && |s1| == 96 && |s1'| == 96 && Sign(c, k, message, z).Ok?
    requires |PublicU(c, k)| == 32 && OnCurve(c, PublicU(c, k)) && EncodePublicKey(PublicU(c, k))[1..] == PublicU(c, k)
    requires Forked(c, g, EncodePublicKey(PublicU(c, k)), message, s1, s1')
    ensures Verify(c, EncodePublicKey(PublicU(c, k)), message, s1) == Some(Sign(c, k, message, z).value.vrf)
  {
    var pk := EncodePublicKey(PublicU(c, k));
    var x := Extract(c, g, pk, message, s1, s1');
    GeneratedKeyIsValid(c, k);
    KeyPairMatchesPublicKey(c, k);
    var (a, A) := CalculateKeyPair(c, k);
    hide Prime, Pow256, FromLe, HashScalar, ChallengeInput, Mul, Sub, Neg, LawfulGroup, LawfulMontgomery, LawfulEdwards,
         LawfulHashes, OnCurveStill, CalculateKeyPair, Clamped;
    var t := Recompute(c, pk, message, s1).value;
    assert t.A == A;
    CofactorCommutes(c, a, B);
    LogarithmUnique(c, x, a);
    CofactorCommutes(c, a, t.bv);
  }

  lemma CofactorCommutes(c: Curve, a: int, p: int)
    requires c.l > 0
    ensures Mul(c, 8, Mul(c, a, p)) == Mul(c, a, Mul(c, 8, p))
  {
    MulMul(c, 8, a, p);
    MulMul(c, a, 8, p);
    assert 8 * a == a * 8;
  }
}
