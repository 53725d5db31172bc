/**
 The Edwards curve group, of order 8 * l with l prime, and the encodings and hashes around it.

 The group is cyclic, so a point is modelled by its residue modulo 8 * l; the basepoint, which has order l,
 is the residue 8. The encodings and hash functions are arbitrary, constrained by Lawful only as far as
 every implementation of them is.
 */
module Curve25519 {
  import opened Wrappers
  import opened Bytes
  import opened NumberTheory

  datatype Curve = Curve(
    l: nat,
    compress: int -> seq<byte>,
    decompress: seq<byte> -> Option<int>,
    mont: int -> seq<byte>,               // u-coordinate of a point
    lift: seq<byte> -> Option<int>,       // to_edwards(0)
    ladder: (int, seq<byte>) -> seq<byte>,  // X25519 of an integer and a u-coordinate
    hashToPoint: seq<byte> -> int,
    hash: (nat, seq<byte>) -> seq<byte>,  // hash_i
    hkdf: seq<byte> -> seq<byte>)

  const B: int := 8

  predicate IsPoint(c: Curve, p: int) {
    0 <= p < 8 * c.l
  }

  function Sub(c: Curve, p: int, q: int): int
    requires c.l > 0
  {
    (p - q) % (8 * c.l)
  }

  function Neg(c: Curve, p: int): int
    requires c.l > 0
  {
    (-p) % (8 * c.l)
  }

  function Mul(c: Curve, n: int, p: int): int
    requires c.l > 0
  {
    (n * p) % (8 * c.l)
  }

  /** The top bit of the last byte of a compressed point. */
  function SignBit(c: Curve, p: int): int {
    var s := c.compress(p);
    if |s| == 32 then s[31] / 0x80 else 0
  }

  /** Of a point and its negative, the one with sign bit 0. */
  function EvenSign(c: Curve, p: int): int
    requires c.l > 0
  {
    if SignBit(c, p) == 1 then Neg(c, p) else p
  }

  ghost predicate LawfulGroup(c: Curve) {
    Prime(c.l) && 16 * Pow256(31) < c.l < 32 * Pow256(31)
  }

  /** Compression is 32 bytes long and undone by decompression; the sign bit tells a point from its
      negative. */
  ghost predicate EdwardsAt(c: Curve, p: int)
    requires c.l > 0
  {
    && |c.compress(p)| == 32 && c.decompress(c.compress(p)) == Some(p)
    && (Neg(c, p) != p ==> SignBit(c, Neg(c, p)) != SignBit(c, p))
  }

  /** A u-coordinate is 32 bytes long with bit 255 clear and is shared by a point and its negative. It is zero
      for the identity and the point of order 2 only; any other lifts to the one of the two points with sign
      bit 0. */
  ghost predicate MontgomeryAt(c: Curve, p: int)
    requires c.l > 0
  {
    && |c.mont(p)| == 32 && c.mont(p)[31] < 0x80
    && c.mont(Neg(c, p)) == c.mont(p)
    && (Neg(c, p) == p <==> c.mont(p) == seq(32, _ => 0))
    && (Neg(c, p) != p ==> c.lift(c.mont(p)) == Some(EvenSign(c, p)))
  }

  /** A u-coordinate with bit 255 cleared. */
  function Masked(u: Bytes32): Bytes32 {
    u[31 := u[31] % 0x80]
  }

  /** X25519 ignores bit 255 and computes multiples. */
  ghost predicate LadderAt(c: Curve, n: int, u: Bytes32)
    requires c.l > 0
  {
    match c.lift(Masked(u))
    case Some(p) => c.ladder(n, u) == c.mont(Mul(c, n, p))
    case None => true
  }

  ghost predicate LawfulEdwards(c: Curve)
    requires c.l > 0
  {
    && (forall p | IsPoint(c, p) :: EdwardsAt(c, p))
    && (forall s | c.decompress(s).Some? :: IsPoint(c, c.decompress(s).value))
  }

  ghost predicate LawfulMontgomery(c: Curve)
    requires c.l > 0
  {
    && (forall p | IsPoint(c, p) :: MontgomeryAt(c, p))
    && (forall s | c.lift(s).Some? :: IsPoint(c, c.lift(s).value))
    && (forall n, u: Bytes32 :: LadderAt(c, n, u))
  }

  ghost predicate LawfulHashes(c: Curve) {
    && (forall s :: IsPoint(c, c.hashToPoint(s)))
    && (forall i, s :: |c.hash(i, s)| == 64)
    && (forall s :: |c.hkdf(s)| == 32)
  }

  ghost predicate Lawful(c: Curve) {
    LawfulGroup(c) && LawfulEdwards(c) && LawfulMontgomery(c) && LawfulHashes(c)
  }

  // ---- Group laws ----

  lemma MulMul(c: Curve, a: int, b: int, p: int)
    requires c.l > 0
    ensures Mul(c, a, Mul(c, b, p)) == Mul(c, a * b, p)
  {
    ModMulRight(a, b * p, 8 * c.l);
    assert a * (b * p) == (a * b) * p;
  }

  lemma SubResidues(c: Curve, x: int, y: int)
    requires c.l > 0
    ensures Sub(c, x % (8 * c.l), y % (8 * c.l)) == (x - y) % (8 * c.l)
  {
    var n := 8 * c.l;
    assert x == n * (x / n) + x % n && y == n * (y / n) + y % n;
    assert n * (y / n - x / n) == n * (y / n) - n * (x / n);
    ModShift(x - y, y / n - x / n, n);
  }

  lemma MulSub(c: Curve, a: int, b: int, p: int)
    requires c.l > 0
    ensures Sub(c, Mul(c, a, p), Mul(c, b, p)) == Mul(c, a - b, p)
  {
    SubResidues(c, a * p, b * p);
    assert a * p - b * p == (a - b) * p;
  }

  /** In the subgroup of order l, multipliers count modulo l. */
  lemma MulModL(c: Curve, n: int, p: int)
    requires c.l > 0 && p % 8 == 0
    ensures Mul(c, n % c.l, p) == Mul(c, n, p)
  {
    var q, r, p8 := n / c.l, n % c.l, p / 8;
    assert n == c.l * q + r && p == 8 * p8;
    assert n * p == r * p + 8 * c.l * (q * p8) by {
      assert (c.l * q + r) * p == (c.l * q) * p + r * p;
      assert (c.l * q) * (8 * p8) == 8 * c.l * (q * p8);
    }
    ModShift(r * p, q * p8, 8 * c.l);
  }

  lemma Cofactor(c: Curve, p: int)
    requires c.l > 0
    ensures Mul(c, 8, p) == 8 * (p % c.l)
  {
    var q, r := p / c.l, p % c.l;
    assert p == c.l * q + r;
    assert 8 * p == 8 * c.l * q + 8 * r;
    ModShift(8 * r, q, 8 * c.l);
    QuotientUnique(8 * c.l, (8 * r) / (8 * c.l), (8 * r) % (8 * c.l), 0, 8 * r);
  }

  lemma ModLOfPoint(c: Curve, x: int)
    requires c.l > 0
    ensures (x % (8 * c.l)) % c.l == x % c.l
  {
    var n, q := 8 * c.l, x / (8 * c.l);
    assert x == n * q + x % n;
    assert n * q == c.l * (8 * q);
    ModShift(x % n, 8 * q, c.l);
  }

  lemma LOdd(c: Curve)
    requires LawfulGroup(c)
    ensures c.l > 32 && c.l % 2 == 1
  {
    assert Pow256(31) >= 0x100 by {
      assert Pow256(31) == 0x100 * Pow256(30);
    }
    assert c.l % 2 != 0;
  }

  /** Multiplying by 8 twice, or by any scalar that is not a multiple of l, keeps a point out of the identity. */
  lemma CofactorOfMultiple(c: Curve, a: int, p: int)
    requires LawfulGroup(c) && a % c.l != 0
    ensures Mul(c, 8, Mul(c, a, p)) == 0 <==> p % c.l == 0
  {
    hide Pow256, Prime;
    Cofactor(c, Mul(c, a, p));
    ModLOfPoint(c, a * p);
    if p % c.l == 0 {
      var k := SameResidue(p, 0, c.l);
      assert a * p == c.l * (a * k);
      ModShift(0, a * k, c.l);
    } else if (a * p) % c.l == 0 {
      PrimeDividesFactor(c.l, a, p);
    }
  }

  lemma EightIsUnit(c: Curve)
    requires LawfulGroup(c)
    ensures 8 % c.l != 0
  {
    LOdd(c);
  }

  lemma MulIsPoint(c: Curve, n: int, p: int)
    requires c.l > 0
    ensures IsPoint(c, Mul(c, n, p)) && IsPoint(c, Neg(c, p))
  {
  }

  lemma NegOf(c: Curve, p: int)
    requires 0 < p < 8 * c.l
    ensures c.l > 0 && Neg(c, p) == 8 * c.l - p
  {
    NegResidue(8 * c.l, p);
  }

  lemma NegEight(c: Curve, r: nat)
    requires 0 < r < c.l
    ensures Neg(c, 8 * r) == 8 * (c.l - r)
  {
    NegOf(c, 8 * r);
  }

  lemma ModSmall(s: int, n: int)
    requires 0 <= s < n
    ensures s % n == s
  {
  }

  lemma BaseMultiple(c: Curve, k: int)
    requires c.l > 0
    ensures Mul(c, k, B) == 8 * (k % c.l)
  {
    Cofactor(c, k);
    assert k * B == 8 * k;
  }

  /** A multiple of the basepoint by a non-zero scalar is not its own negative. */
  lemma NotSelfInverse(c: Curve, k: int)
    requires LawfulGroup(c) && k % c.l != 0
    ensures Neg(c, Mul(c, k, B)) != Mul(c, k, B)
  {
    hide Mul, Neg, Prime, Pow256, LawfulGroup;
    LOdd(c);
    BaseMultiple(c, k);
    NegEight(c, k % c.l);
  }

  /** Negating the scalar negates the multiple of the basepoint. */
  lemma NegScalar(c: Curve, k: int)
    requires LawfulGroup(c) && 0 <= k < c.l
    ensures Mul(c, (-k) % c.l, B) == Neg(c, Mul(c, k, B))
  {
    hide Prime, Pow256;
    MulModL(c, -k, B);
    ModMulRight(-1, k * B, 8 * c.l);
    assert (-1) * (k * B) == (-k) * B;
  }

  /** Negation is multiplication by -1 and its own inverse. */
  lemma NegFacts(c: Curve, p: int)
    requires c.l > 0 && IsPoint(c, p)
    ensures Neg(c, p) == Mul(c, -1, p) && Neg(c, Neg(c, p)) == p && IsPoint(c, Neg(c, p))
  {
    assert (-1) * p == -p;
    ModMulRight(-1, -p, 8 * c.l);
    assert (-1) * (-p) == p;
    assert (-1) * ((-p) % (8 * c.l)) == -((-p) % (8 * c.l));
    ModSmall(p, 8 * c.l);
  }

  lemma MulNeg(c: Curve, n: int, p: int)
    requires c.l > 0 && IsPoint(c, p)
    ensures Mul(c, n, Neg(c, p)) == Neg(c, Mul(c, n, p))
  {
    NegFacts(c, p);
    MulIsPoint(c, n, p);
    NegFacts(c, Mul(c, n, p));
    MulMul(c, n, -1, p);
    MulMul(c, -1, n, p);
  }

  /** Two points have the same u-coordinate exactly when they are equal up to sign. */
  lemma SameU(c: Curve, p: int, q: int)
    requires Lawful(c) && IsPoint(c, p) && IsPoint(c, q) && Neg(c, q) != q
    ensures c.mont(p) == c.mont(q) <==> p == q || p == Neg(c, q)
  {
    hide Neg, LawfulGroup, LawfulEdwards, LawfulHashes, SignBit;
    assert MontgomeryAt(c, p) && MontgomeryAt(c, q);
    NegFacts(c, p);
    NegFacts(c, q);
  }

  /** Multiples of the basepoint have one u-coordinate exactly when the scalars agree up to sign modulo l. */
  lemma SameBaseU(c: Curve, n: int, m: int)
    requires Lawful(c) && m % c.l != 0
    ensures c.mont(Mul(c, n, B)) == c.mont(Mul(c, m, B)) <==> n % c.l == m % c.l || n % c.l == (-m) % c.l
  {
    assert c.l > 0 && LawfulGroup(c);
    hide Lawful, LawfulGroup, Mul, Neg, IsPoint;
    MulIsPoint(c, n, B);
    MulIsPoint(c, m, B);
    NotSelfInverse(c, m);
    SameU(c, Mul(c, n, B), Mul(c, m, B));
    NegOfMultiple(c, m);
    SameMultiple(c, n, m);
    SameMultiple(c, n, -m);
  }

  lemma NegOfMultiple(c: Curve, m: int)
    requires c.l > 0
    ensures Neg(c, Mul(c, m, B)) == Mul(c, -m, B)
  {
    hide Mul, Neg;
    MulIsPoint(c, m, B);
    NegFacts(c, Mul(c, m, B));
    MulMul(c, -1, m, B);
    assert -1 * m == -m;
  }

  lemma SameMultiple(c: Curve, n: int, m: int)
    requires c.l > 0
    ensures Mul(c, n, B) == Mul(c, m, B) <==> n % c.l == m % c.l
  {
    BaseMultiple(c, n);
    BaseMultiple(c, m);
  }

  /** Multiplying by a scalar that is a multiple of 8 but not of l sees a point exactly up to its small-order
      part. */
  lemma MulCancel(c: Curve, n: int, p: int, q: int)
    requires LawfulGroup(c) && n % 8 == 0 && n % c.l != 0
    ensures Mul(c, n, p) == Mul(c, n, q) <==> Mul(c, 8, p) == Mul(c, 8, q)
  {
    assert c.l > 0;
    hide Prime, Pow256, LawfulGroup, Mul;
    var t := n / 8;
    assert n == t * 8;
    MulMul(c, t, 8, p);
    MulMul(c, t, 8, q);
    Cofactor(c, p);
    Cofactor(c, q);
    if Mul(c, n, p) == Mul(c, n, q) {
      CancelModL(c, n, p, q);
    }
  }

  lemma CancelModL(c: Curve, n: int, p: int, q: int)
    requires LawfulGroup(c) && n % c.l != 0 && Mul(c, n, p) == Mul(c, n, q)
    ensures p % c.l == q % c.l
  {
    hide Prime, Pow256;
    var k := SameResidue(n * p, n * q, 8 * c.l);
    assert n * (p - q) == n * p - n * q;
    assert 8 * c.l * k == c.l * (8 * k);
    ModShift(0, 8 * k, c.l);
    PrimeDividesFactor(c.l, n, p - q);
    var m := SameResidue(p - q, 0, c.l);
    ResidueFrom(p, q, c.l, m);
  }

  lemma MultipleNotSelfInverse(c: Curve, n: int, q: int)
    requires LawfulGroup(c) && n % 8 == 0 && n % c.l != 0 && q % c.l != 0
    ensures Neg(c, Mul(c, n, q)) != Mul(c, n, q)
  {
    hide Prime, Pow256, Neg;
    var t := n / 8;
    assert n * q == (t * q) * B;
    if (t * q) % c.l == 0 {
      var k := SameResidue(t * q, 0, c.l);
      assert n * q == c.l * (8 * k);
      ModShift(0, 8 * k, c.l);
      PrimeDividesFactor(c.l, n, q);
    }
    NotSelfInverse(c, t * q);
  }
}
