/** What the verifier insists on, and what challenges, nonces and VRF outputs depend on. */
module Binding {
  import opened Wrappers
  import opened Bytes
  import opened NumberTheory
  import opened Curve25519
  import opened KeyUtils
  import opened Vxeddsa

  // ---- The verifier ----

  /** How far the verifier gets before it looks at the challenge: exactly with a well-formed key, two canonical scalars
      and a point V, none of the key, V and the message point of small order. */
  lemma VerifierReads(c: Curve, pk: Bytes33, message: seq<byte>, signature: Bytes96)
    requires LawfulGroup(c)
    requires pk[0] == 0x05 ==> OnCurve(c, pk[1..])
    ensures Recompute(c, pk, message, signature).Some? <==>
            && pk[0] == 0x05
            && FromLe(signature[32..64]) < c.l && FromLe(signature[64..96]) < c.l
            && c.decompress(signature[..32]).Some?
            && ConvertMont(c, pk[1..]) % c.l != 0 && c.decompress(signature[..32]).value % c.l != 0
            && c.hashToPoint(c.compress(ConvertMont(c, pk[1..])) + message) % c.l != 0
  {
    hide Prime, Pow256, FromLe, Mul, Sub;
    if pk[0] == 0x05 && c.decompress(signature[..32]).Some? {
      var A, V := ConvertMont(c, pk[1..]), c.decompress(signature[..32]).value;
      Cofactor(c, A);
      Cofactor(c, V);
      Cofactor(c, c.hashToPoint(c.compress(A) + message));
    }
  }

  /** The challenge is binding. Let the fourth hash answer every input with the number n: then a signature is accepted
      exactly when the verifier can read it and its second field is n modulo the group order. */
  lemma ChallengeBinds(c: Curve, pk: Bytes33, message: seq<byte>, signature: Bytes96, n: nat)
    requires LawfulGroup(c) && n < Pow256(64)
    requires pk[0] == 0x05 ==> OnCurve(c, pk[1..])
    ensures OnCurveStill(c, Rewound(c, n), pk)
    ensures Verify(c.(hash := Rewound(c, n)), pk, message, signature).Some? <==>
            Recompute(c, pk, message, signature).Some? && FromLe(signature[32..64]) == n % c.l
  {
    var c' := c.(hash := Rewound(c, n));
    RecomputeIgnoresHash(c, Rewound(c, n), pk, message, signature);
    if Recompute(c, pk, message, signature).Some? {
      var t := Recompute(c, pk, message, signature).value;
      RewoundScalar(c, n, ChallengeInput(c', t.A, t.vBytes, t.R, t.Rv, message));
    }
    hide Rewound, HashScalar, ChallengeInput, OnCurve, Vrf, Prime, Pow256, Mul, Sub, FromLe;
  }

  /** All 64 bytes of a digest count, reduced modulo the group order. */
  lemma RewoundScalar(c: Curve, n: nat, s: seq<byte>)
    requires c.l > 0 && n < Pow256(64)
    ensures HashScalar(c.(hash := Rewound(c, n)), 4, s) == n % c.l
  {
    hide Pow256;
    LeRoundTrip(n, 64);
  }

  /** Every part of the challenge is hashed: the inputs of two challenges are equal exactly when all their parts are. */
  lemma ChallengeInputBinds(c: Curve, A: int, v: Bytes32, R: int, Rv: int, m: seq<byte>,
                            A': int, v': Bytes32, R': int, Rv': int, m': seq<byte>)
    requires c.l > 0 && LawfulEdwards(c)
    requires IsPoint(c, A) && IsPoint(c, R) && IsPoint(c, Rv) && IsPoint(c, A') && IsPoint(c, R') && IsPoint(c, Rv')
    ensures ChallengeInput(c, A, v, R, Rv, m) == ChallengeInput(c, A', v', R', Rv', m') <==>
            A == A' && v == v' && R == R' && Rv == Rv' && m == m'
  {
    assert EdwardsAt(c, A) && EdwardsAt(c, R) && EdwardsAt(c, Rv);
    assert EdwardsAt(c, A') && EdwardsAt(c, R') && EdwardsAt(c, Rv');
    hide LawfulEdwards, Neg, SignBit;
    ChallengeFields(c, A, v, R, Rv, m);
    ChallengeFields(c, A', v', R', Rv', m');
  }

  lemma ChallengeFields(c: Curve, A: int, v: Bytes32, R: int, Rv: int, m: seq<byte>)
    requires |c.compress(A)| == |c.compress(R)| == |c.compress(Rv)| == 32
    ensures var x := ChallengeInput(c, A, v, R, Rv, m);
            && |x| == 128 + |m|
            && x[..32] == c.compress(A) && x[32..64] == v
            && x[64..96] == c.compress(R) && x[96..128] == c.compress(Rv) && x[128..] == m
  {
  }

  /** No signature can be altered in its last field: with V, the challenge and the commitment to the basepoint fixed,
      one response is accepted. */
  lemma ResponseUnique(c: Curve, pk: Bytes33, message: seq<byte>, signature: Bytes96, signature': Bytes96)
    requires LawfulGroup(c)
    requires pk[0] == 0x05 ==> OnCurve(c, pk[1..])
    requires Recompute(c, pk, message, signature).Some? && Recompute(c, pk, message, signature').Some?
    requires signature[..64] == signature'[..64]
    requires Recompute(c, pk, message, signature).value.R == Recompute(c, pk, message, signature').value.R
    ensures signature == signature'
  {
    hide Prime, Pow256, FromLe, Mul, Sub, MessagePoint;
    var t, t' := Recompute(c, pk, message, signature).value, Recompute(c, pk, message, signature').value;
    assert signature[32..64] == signature[..64][32..] == signature'[32..64];
    var k := CommonCommitment(c, t.s, t.h, t'.s, t'.h, B, t.A);
    assert t.h == t'.h && t.A == t'.A;
    SameResponse(c.l, t.s, t'.s, k);
    FromLeInjective(signature[64..96], signature'[64..96]);
    assert signature == signature[..64] + signature[64..96] && signature' == signature'[..64] + signature'[64..96];
  }

  lemma SameResponse(l: nat, s: nat, s': nat, k: int)
    requires s < l && s' < l && (s - s') * 8 == 8 * l * k
    ensures s == s'
  {
    assert 8 * l * k == 8 * (l * k);
    SmallMultiple(l, k);
  }

  // ---- The nonce ----

  /** Two signing calls use one nonce scalar only with one secret scalar, one V and one draw of randomness, unless the
      third hash collides on their inputs. */
  lemma NonceBinds(c: Curve, a: nat, v: Bytes32, z: seq<byte>, a': nat, v': Bytes32, z': seq<byte>)
    requires LawfulGroup(c) && a < c.l && a' < c.l
    requires var x, y := ToLe(a, 32) + v + z, ToLe(a', 32) + v' + z';
             FromLe(c.hash(3, x)) % c.l == FromLe(c.hash(3, y)) % c.l ==> x == y
    ensures SigningNonce(c, a, v, z) == SigningNonce(c, a', v', z') <==> a == a' && v == v' && z == z'
  {
    assert Pow256(32) == 0x100 * Pow256(31);
    LeRoundTrip(a, 32);
    LeRoundTrip(a', 32);
    hide Prime, Pow256, FromLe, ToLe;
    ThreeFields(ToLe(a, 32), v, z, ToLe(a', 32), v', z');
  }

  lemma ThreeFields(x: Bytes32, y: Bytes32, z: seq<byte>, x': Bytes32, y': Bytes32, z': seq<byte>)
    ensures x + y + z == x' + y' + z' <==> x == x' && y == y' && z == z'
  {
    var s, t := x + y + z, x' + y' + z';
    assert s[..32] == x && s[32..64] == y && s[64..] == z;
    assert t[..32] == x' && t[32..64] == y' && t[64..] == z';
  }

  // ---- The VRF output ----

  /** The VRF output is 32 bytes, and unless those of the fifth hash collide it tells points apart exactly up to small
      order. */
  lemma VrfBinds(c: Curve, V: int, W: int)
    requires Lawful(c) && IsPoint(c, V) && IsPoint(c, W)
    requires var x, y := c.compress(Mul(c, 8, V)), c.compress(Mul(c, 8, W));
             c.hash(5, x)[..32] == c.hash(5, y)[..32] ==> x == y
    ensures |Vrf(c, V)| == 32
    ensures Vrf(c, V) == Vrf(c, W) <==> Mul(c, 8, V) == Mul(c, 8, W)
  {
    MulIsPoint(c, 8, V);
    MulIsPoint(c, 8, W);
    assert EdwardsAt(c, Mul(c, 8, V)) && EdwardsAt(c, Mul(c, 8, W));
  }

  /** One key gives two messages one VRF output exactly when their hashed points agree up to small order. */
  lemma VrfTellsMessagesApart(c: Curve, k: Bytes32, m: seq<byte>, z: seq<byte>, m': seq<byte>, z': seq<byte>)
    requires Lawful(c) && Sign(c, k, m, z).Ok? && Sign(c, k, m', z').Ok?
    requires var (a, A) := CalculateKeyPair(c, k);
             var V, W := Mul(c, a, MessagePoint(c, c.compress(A), m)), Mul(c, a, MessagePoint(c, c.compress(A), m'));
             var x, y := c.compress(Mul(c, 8, V)), c.compress(Mul(c, 8, W));
             c.hash(5, x)[..32] == c.hash(5, y)[..32] ==> x == y
    ensures var A := CalculateKeyPair(c, k).1;
            Sign(c, k, m, z).value.vrf == Sign(c, k, m', z').value.vrf <==>
            Mul(c, 8, c.hashToPoint(c.compress(A) + m)) == Mul(c, 8, c.hashToPoint(c.compress(A) + m'))
  {
    KeyPairMatchesPublicKey(c, k);
    var r, h := SignatureFields(c, k, m, z);
    var r', h' := SignatureFields(c, k, m', z');
    hide Sign, Prime, Pow256, Mul, CalculateKeyPair, Vrf, LawfulEdwards, LawfulMontgomery, HashScalar, ChallengeInput,
         SigningNonce, Response, ScalarBytes;
    var (a, A) := CalculateKeyPair(c, k);
    var P, Q := c.hashToPoint(c.compress(A) + m), c.hashToPoint(c.compress(A) + m');
    var V, W := Mul(c, a, Mul(c, 8, P)), Mul(c, a, Mul(c, 8, Q));
    MulIsPoint(c, a, Mul(c, 8, P));
    MulIsPoint(c, a, Mul(c, 8, Q));
    VrfBinds(c, V, W);
    CofactorTwice(c, a, P, Q);
  }

  lemma CofactorTwice(c: Curve, a: int, p: int, q: int)
    requires LawfulGroup(c) && 0 < a < c.l
    ensures Mul(c, 8, Mul(c, a, Mul(c, 8, p))) == Mul(c, 8, Mul(c, a, Mul(c, 8, q))) <==> Mul(c, 8, p) == Mul(c, 8, q)
  {
    hide Prime, Pow256, Mul;
    if Mul(c, 8, Mul(c, a, Mul(c, 8, p))) == Mul(c, 8, Mul(c, a, Mul(c, 8, q))) {
      EightIsUnit(c);
      ModSmall(a, c.l);
      CancelModL(c, 8, Mul(c, a, Mul(c, 8, p)), Mul(c, a, Mul(c, 8, q)));
      Unscaled(c, a, Mul(c, 8, p), Mul(c, 8, q));
      Unscaled(c, 8, p, q);
      Cofactor(c, p);
      Cofactor(c, q);
    }
  }

  /** A scalar that is not a multiple of l can be cancelled modulo l. */
  lemma Unscaled(c: Curve, a: int, p: int, q: int)
    requires LawfulGroup(c) && a % c.l != 0 && Mul(c, a, p) % c.l == Mul(c, a, q) % c.l
    ensures p % c.l == q % c.l
  {
    hide Prime, Pow256;
    ModLOfPoint(c, a * p);
    ModLOfPoint(c, a * q);
    var k := SameResidue(a * p, a * q, c.l);
    assert a * (p - q) == a * p - a * q;
    ModShift(0, k, c.l);
    PrimeDividesFactor(c.l, a, p - q);
    var m := SameResidue(p - q, 0, c.l);
    ResidueFrom(p, q, c.l, m);
  }
}
