/** Key clamping, key pairs and the encoding of public keys. */
module KeyUtils {
  import opened Wrappers
  import opened Bytes
  import opened NumberTheory
  import opened Curve25519

  datatype DecodeError = InvalidPrefix

  // ---- Clamping ----

  /** The low three bits cleared, the top bit cleared and the one below it set. */
  function Clamped(u: Bytes32): (r: Bytes32) {
    u[0 := u[0] - u[0] % 8][31 := 0x40 + u[31] % 0x40]
  }

  /** The integer X25519 multiplies by. */
  function ClampedInt(u: Bytes32): nat {
    FromLe(Clamped(u))
  }

  /** clamp_private_key, byte by byte in place. */
  method ClampPrivateKey(u: Bytes32) returns (r: Bytes32)
    ensures r == Clamped(u)
  {
    var bytes := new byte[32](i requires 0 <= i < 32 => u[i]);
    hide And, Or;
    bytes[0] := And(bytes[0], 248);
    bytes[31] := And(bytes[31], 127);
    bytes[31] := Or(bytes[31], 64);
    r := bytes[..];
    assert r == u[0 := And(u[0], 248)][31 := Or(And(u[31], 127), 64)];
    LowBitsCleared(u[0]);
    TopBits(u[31]);
  }

  lemma ClampedBytes(u: Bytes32)
    ensures Clamped(u)[0] % 8 == 0 && 0x40 <= Clamped(u)[31] < 0x80
    ensures Clamped(Clamped(u)) == Clamped(u)
  {
    var x: int := u[0];
    var y: int := x - x % 8;
    assert y % 8 == 0;
    var t: int := u[31] % 0x40;
    assert (0x40 + t) % 0x40 == t;
  }

  /** A clamped seed is a multiple of 8 in [2^254, 2^255), and clamping it again changes nothing. */
  lemma ClampRange(u: Bytes32)
    ensures ClampedInt(u) % 8 == 0
    ensures 64 * Pow256(31) <= ClampedInt(u) < 128 * Pow256(31)
    ensures Clamped(Clamped(u)) == Clamped(u)
  {
    ClampedBytes(u);
    var s := Clamped(u);
    hide Clamped;
    FromLeLast(s);
    FromLeBound(s[..31]);
    HighByte(Pow256(31), s[31]);
    hide Pow256;
    LowByte(s);
  }

  /** Clamping forgets the low three bits of the first byte and the top two of the last, and nothing else. */
  lemma ClampBinds(u: Bytes32, v: Bytes32)
    ensures ClampedInt(u) == ClampedInt(v) <==>
            u[0] / 8 == v[0] / 8 && u[1..31] == v[1..31] && u[31] % 0x40 == v[31] % 0x40
  {
    if ClampedInt(u) == ClampedInt(v) {
      FromLeInjective(Clamped(u), Clamped(v));
    }
    hide FromLe;
    assert Clamped(u)[1..31] == u[1..31] && Clamped(v)[1..31] == v[1..31];
    assert Clamped(u)[0] == 8 * (u[0] / 8) && Clamped(v)[0] == 8 * (v[0] / 8);
    assert Clamped(u) == [Clamped(u)[0]] + u[1..31] + [Clamped(u)[31]];
    assert Clamped(v) == [Clamped(v)[0]] + v[1..31] + [Clamped(v)[31]];
  }

  /** A key is left alone exactly when it already has the clamped form. */
  lemma ClampFixed(u: Bytes32)
    ensures Clamped(u) == u <==> u[0] % 8 == 0 && 0x40 <= u[31] < 0x80
  {
    if u[0] % 8 == 0 && 0x40 <= u[31] < 0x80 {
      assert 0x40 + u[31] % 0x40 == u[31];
    } else if Clamped(u) == u {
      ClampedBytes(u);
    }
  }

  lemma LowByte(s: seq<byte>)
    requires s != [] && s[0] % 8 == 0
    ensures FromLe(s) % 8 == 0
  {
    var rest: int := FromLe(s[1..]);
    assert 0x100 * rest == 8 * (32 * rest);
    ModShift(s[0], 32 * rest, 8);
  }

  lemma HighByte(p: nat, b: nat)
    requires 64 <= b < 128
    ensures p * 64 <= p * b && p * b + p <= p * 128
  {
    MulNonNegative(p, b - 64);
    MulNonNegative(p, 127 - b);
    assert p * (b - 64) == p * b - p * 64;
    assert p * (127 - b) == p * 127 - p * b;
  }

  /** So it is never zero modulo the group order: the seed cannot yield the zero scalar. */
  lemma ClampNonZero(c: Curve, u: Bytes32)
    requires LawfulGroup(c)
    ensures ClampedInt(u) % c.l != 0
  {
    ClampRange(u);
    LOdd(c);
    hide Prime, FromLe, Clamped, Pow256;
    var v := ClampedInt(u);
    if v % c.l == 0 {
      var k := SameResidue(v, 0, c.l);
      assert v == c.l * k && v < c.l * 8;
      SmallQuotient(c.l, k, v);
      OddTimes(c.l, k);
    }
  }

  lemma SmallQuotient(l: nat, k: int, v: nat)
    requires 0 < v == l * k && v < l * 8
    ensures 0 < k < 8
  {
    MulMonotone(l, k, 0);
    MulMonotone(l, 8, k);
  }

  lemma OddTimes(l: nat, k: nat)
    requires l % 2 == 1 && 0 < k < 8
    ensures (l * k) % 8 != 0
  {
    var h := l / 2;
    assert l == 2 * h + 1;
    if k == 1 { assert l * k == 2 * h + 1; }
    else if k == 2 { assert l * k == 4 * h + 2; }
    else if k == 3 { assert l * k == 6 * h + 3; }
    else if k == 4 { assert l * k == 8 * h + 4; }
    else if k == 5 { assert l * k == 10 * h + 5; }
    else if k == 6 { assert l * k == 12 * h + 6; }
    else { assert l * k == 14 * h + 7; }
  }

  // ---- Key pairs ----

  /** The scalar or its negative, whichever gives a public point with sign bit 0. */
  function SignedScalar(c: Curve, k: int): int
    requires c.l > 0
  {
    if SignBit(c, Mul(c, k, B)) == 1 then (-k) % c.l else k
  }

  lemma SignedScalarPoint(c: Curve, k: int)
    requires Lawful(c) && 0 < k < c.l
    ensures 0 < SignedScalar(c, k) < c.l
    ensures Mul(c, SignedScalar(c, k), B) == EvenSign(c, Mul(c, k, B))
    ensures SignBit(c, Mul(c, SignedScalar(c, k), B)) == 0
    ensures c.lift(c.mont(Mul(c, k, B))) == Some(Mul(c, SignedScalar(c, k), B))
  {
    ModSmall(k, c.l);
    hide LawfulHashes, LawfulGroup, Prime, Mul, Neg, Pow256;
    var ed := Mul(c, k, B);
    MulIsPoint(c, k, B);
    MulIsPoint(c, k, ed);
    NotSelfInverse(c, k);
    NegScalar(c, k);
    NegNonZero(c.l, k);
    assert EdwardsAt(c, ed) && EdwardsAt(c, Neg(c, ed)) && MontgomeryAt(c, ed);
    SignIsBit(c, ed);
    SignIsBit(c, Neg(c, ed));
  }

  /** calculate_key_pair: the scalar and the Edwards public point with sign bit 0. */
  function CalculateKeyPair(c: Curve, seed: Bytes32): (int, int)
    requires c.l > 0
  {
    var a := SignedScalar(c, ClampedInt(seed) % c.l);
    (a, Mul(c, a, B))
  }

  /** gen_pubkey without its prefix byte: X25519 of the seed and the basepoint. */
  function PublicU(c: Curve, seed: Bytes32): seq<byte>
    requires c.l > 0
  {
    c.mont(Mul(c, ClampedInt(seed), B))
  }

  /** A seed never yields the zero scalar, and its Edwards public point has sign bit 0 and is the one that
      to_edwards(0) recovers from its X25519 public key. */
  lemma KeyPairMatchesPublicKey(c: Curve, seed: Bytes32)
    requires Lawful(c)
    ensures var (a, A) := CalculateKeyPair(c, seed);
            && 0 < a < c.l
            && IsPoint(c, A) && SignBit(c, A) == 0
            && A == Mul(c, a, B)
            && c.lift(PublicU(c, seed)) == Some(A)
  {
    hide LawfulHashes, LawfulEdwards, LawfulMontgomery, Clamped, FromLe, Prime, Mul, Pow256, SignedScalar;
    var v := ClampedInt(seed);
    ClampNonZero(c, seed);
    MulModL(c, v, B);
    MulIsPoint(c, SignedScalar(c, v % c.l), B);
    SignedScalarPoint(c, v % c.l);
  }

  /** Two seeds have one public key exactly when their clamped scalars agree up to sign, modulo the group order. */
  lemma PublicKeysAgree(c: Curve, u: Bytes32, v: Bytes32)
    requires Lawful(c)
    ensures var n: int, m: int := ClampedInt(u), ClampedInt(v);
            PublicU(c, u) == PublicU(c, v) <==> n % c.l == m % c.l || n % c.l == (-m) % c.l
  {
    hide LawfulGroup, LawfulEdwards, LawfulMontgomery, LawfulHashes, ClampedInt, Mul;
    ClampNonZero(c, v);
    SameBaseU(c, ClampedInt(u), ClampedInt(v));
  }

  lemma NegNonZero(l: nat, k: int)
    requires 0 < k < l
    ensures 0 < (-k) % l < l
  {
    NegResidue(l, k);
  }

  lemma SignIsBit(c: Curve, p: int)
    requires c.l > 0 && LawfulEdwards(c) && IsPoint(c, p)
    ensures SignBit(c, p) == 0 || SignBit(c, p) == 1
  {
    assert EdwardsAt(c, p);
  }

  // ---- Encodings ----

  function EncodePublicKey(key: seq<byte>): seq<byte> {
    [0x05] + key
  }

  function DecodePublicKey(key: seq<byte>): Result<seq<byte>, DecodeError>
    requires |key| == 33
  {
    if key[0] != 0x05 then Err(InvalidPrefix) else Ok(key[1..])
  }

  /** encode_public_key, into a 33-byte buffer. */
  method EncodeInto(key: Bytes32) returns (encoded: Bytes33)
    ensures encoded == EncodePublicKey(key)
  {
    var buffer := new byte[33](_ => 0);
    buffer[0] := 0x05;
    forall i | 1 <= i < 33 { buffer[i] := key[i - 1]; }
    encoded := buffer[..];
  }

  /** decode_public_key, out of a 33-byte buffer. */
  method DecodeInto(key: Bytes33) returns (decoded: Result<Bytes32, DecodeError>)
    ensures decoded == DecodePublicKey(key)
  {
    if key[0] != 0x05 {
      return Err(InvalidPrefix);
    }
    var buffer := new byte[32](_ => 0);
    forall i | 0 <= i < 32 { buffer[i] := key[i + 1]; }
    assert buffer[..] == key[1..];
    decoded := Ok(buffer[..]);
  }

  /** decode_public_key accepts exactly the images of encode_public_key and inverts it. */
  lemma PublicKeyRoundTrip(key: seq<byte>, encoded: seq<byte>)
    requires |key| == 32 && |encoded| == 33
    ensures DecodePublicKey(EncodePublicKey(key)) == Ok(key)
    ensures DecodePublicKey(encoded).Ok? <==> exists k: seq<byte> :: |k| == 32 && encoded == EncodePublicKey(k)
  {
    assert EncodePublicKey(key)[1..] == key;
    if encoded[0] == 0x05 {
      assert encoded == EncodePublicKey(encoded[1..]);
    }
  }

  /** The public key names a point of the curve; to_edwards panics otherwise. */
  predicate OnCurve(c: Curve, u: seq<byte>)
    requires |u| == 32
  {
    c.lift(Masked(u)).Some?
  }

  /** convert_mont */
  function ConvertMont(c: Curve, u: seq<byte>): int
    requires |u| == 32 && OnCurve(c, u)
  {
    c.lift(Masked(u)).value
  }

  /** convert_mont sees all of a key but its top bit. */
  lemma ConvertIgnoresTopBit(c: Curve, u: Bytes32, v: Bytes32)
    ensures Masked(u) == Masked(v) <==> u[..31] == v[..31] && u[31] % 0x80 == v[31] % 0x80
    ensures u[..31] == v[..31] && u[31] % 0x80 == v[31] % 0x80 ==>
              (OnCurve(c, u) <==> OnCurve(c, v)) && (OnCurve(c, u) ==> ConvertMont(c, u) == ConvertMont(c, v))
  {
    assert Masked(u) == u[..31] + [u[31] % 0x80] && Masked(v) == v[..31] + [v[31] % 0x80];
    assert Masked(u)[..31] == u[..31] && Masked(v)[..31] == v[..31];
  }

  /** convert_mont, masking in place. */
  method ConvertMasking(c: Curve, u: Bytes32) returns (p: int)
    requires OnCurve(c, u)
    ensures p == ConvertMont(c, u)
  {
    var masked := new byte[32](i requires 0 <= i < 32 => u[i]);
    hide And;
    TopBitCleared(u[31]);
    masked[31] := And(masked[31], 127);
    assert masked[..] == Masked(u);
    p := c.lift(masked[..]).value;
  }

  /** is_valid_public_key */
  predicate IsValidPublicKey(c: Curve, pk: seq<byte>)
    requires c.l > 0 && |pk| == 33
    requires pk[0] == 0x05 && pk[1..] != seq(32, _ => 0) ==> OnCurve(c, pk[1..])
  {
    match DecodePublicKey(pk) {
      case Err(_) => false
      case Ok(decoded) =>
        if decoded == seq(32, _ => 0) then false
        else
          var edwards := ConvertMont(c, decoded);
          edwards != 0 && Mul(c, 8, edwards) != 0
    }
  }

  /** What is_valid_public_key lets through: a key whose point is not of small order. */
  lemma ValidMeansLargeOrder(c: Curve, pk: seq<byte>)
    requires Lawful(c) && |pk| == 33
    requires pk[0] == 0x05 && pk[1..] != seq(32, _ => 0) ==> OnCurve(c, pk[1..])
    ensures IsValidPublicKey(c, pk) <==>
            pk[0] == 0x05 && pk[1..] != seq(32, _ => 0) && ConvertMont(c, pk[1..]) % c.l != 0
  {
    hide LawfulHashes, LawfulEdwards, LawfulGroup, Prime, Pow256, Mul, Neg;
    if pk[0] == 0x05 && pk[1..] != seq(32, _ => 0) {
      var p := ConvertMont(c, pk[1..]);
      Cofactor(c, p);
      assert p == 0 ==> p % c.l == 0;
    }
  }

  /** Every key of the library's own making is valid. */
  lemma GeneratedKeyIsValid(c: Curve, seed: Bytes32)
    requires Lawful(c)
    ensures var pk := EncodePublicKey(PublicU(c, seed));
            && |pk| == 33 && DecodePublicKey(pk) == Ok(PublicU(c, seed)) && |PublicU(c, seed)| == 32
            && PublicU(c, seed) != seq(32, _ => 0)
            && OnCurve(c, PublicU(c, seed)) && ConvertMont(c, PublicU(c, seed)) == CalculateKeyPair(c, seed).1
            && IsValidPublicKey(c, pk)
  {
    LOdd(c);
    hide LawfulHashes, LawfulEdwards, LawfulGroup, Prime, Pow256, Clamped, FromLe, Mul, Neg, CalculateKeyPair;
    var v, u := ClampedInt(seed), PublicU(c, seed);
    MulIsPoint(c, v, B);
    assert MontgomeryAt(c, Mul(c, v, B));
    KeyPairMatchesPublicKey(c, seed);
    ClampNonZero(c, seed);
    NotSelfInverse(c, v);
    assert Masked(u) == u by {
      assert u[31] % 0x80 == u[31];
    }
    assert EncodePublicKey(u)[1..] == u;
    var (a, A) := CalculateKeyPair(c, seed);
    BasePointLargeOrder(c, a);
    ValidMeansLargeOrder(c, EncodePublicKey(u));
  }

  lemma BasePointLargeOrder(c: Curve, a: int)
    requires LawfulGroup(c) && 0 < a < c.l
    ensures Mul(c, a, B) % c.l != 0
  {
    hide Mul, Prime, Pow256;
    BaseMultiple(c, a);
    EightIsUnit(c);
    ModSmall(a, c.l);
    if (8 * a) % c.l == 0 {
      PrimeDividesFactor(c.l, 8, a);
    }
  }
}
