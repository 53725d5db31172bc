/**
 The laws assumed of the curve are consistent: for every prime of the right size some curve meets them.

 The curve built here writes a point as its distance from the identity, in whichever direction is shorter,
 and keeps the direction in the sign bit.
 */
module CurveLaws {
  import opened Wrappers
  import opened Bytes
  import opened NumberTheory
  import opened Curve25519

  function Distance(l: nat, p: int): int {
    if p <= 4 * l then p else 8 * l - p
  }

  function Digits(l: nat, p: int): Bytes32 {
    var d := Distance(l, p);
    ToLe(if d >= 0 then d else 0, 32)
  }

  function Compress(l: nat, p: int): seq<byte> {
    var s := Digits(l, p);
    if p > 4 * l && s[31] < 0x80 then s[31 := s[31] + 0x80] else s
  }

  function Decompress(l: nat, s: seq<byte>): Option<int> {
    if |s| != 32 then None
    else
      var d := FromLe(Masked(s));
      var p := if s[31] >= 0x80 then 8 * l - d else d;
      if 0 <= p < 8 * l then Some(p) else None
  }

  function Mont(l: nat, p: int): seq<byte> {
    if p == 4 * l then seq(32, _ => 0) else Digits(l, p)
  }

  function Lift(l: nat, u: seq<byte>): Option<int> {
    if 0 < FromLe(u) < 4 * l then Some(FromLe(u)) else None
  }

  function Ladder(l: nat, n: int, u: seq<byte>): seq<byte>
    requires l > 0
  {
    if |u| != 32 then [] else
    match Lift(l, Masked(u)) {
      case Some(p) => Mont(l, (n * p) % (8 * l))
      case None => []
    }
  }

  /** The curve, with a map to the curve that is constantly point and hashes that are constantly digest. */
  function Example(l: nat, point: int, digest: seq<byte>): Curve
    requires l > 0
  {
    Curve(l, p => Compress(l, p), s => Decompress(l, s), p => Mont(l, p), u => Lift(l, u),
          (n, u) => Ladder(l, n, u), _ => point, (_, _) => digest, _ => seq(32, _ => 0))
  }

  lemma {:induction false} ZeroDigits(k: nat)
    ensures FromLe(seq(k, _ => 0)) == 0
    ensures ToLe(0, k) == seq(k, _ => 0)
  {
    if k > 0 {
      ZeroDigits(k - 1);
      assert seq(k, _ => 0)[1..] == seq(k - 1, _ => 0);
    }
  }

  /** A number below 2^255 has 32 digits, the last of them below 0x80. */
  lemma SmallDigits(l: nat, p: int)
    requires 0 < l < 32 * Pow256(31) && 0 <= p < 8 * l
    ensures Digits(l, p)[31] < 0x80
    ensures FromLe(Digits(l, p)) == Distance(l, p)
  {
    var d, s := Distance(l, p), Digits(l, p);
    assert Pow256(32) == 0x100 * Pow256(31);
    LeRoundTrip(d, 32);
    FromLeLast(s);
    if s[31] >= 0x80 {
      MulMonotone(Pow256(31), 0x80, s[31]);
      assert false;
    }
  }

  lemma Negated(l: nat, point: int, digest: seq<byte>, p: int)
    requires l > 0 && 0 <= p < 8 * l
    ensures Neg(Example(l, point, digest), p) == if p == 0 then 0 else 8 * l - p
  {
    var c := Example(l, point, digest);
    hide Neg;
    if p == 0 {
      NegOfIdentity(c);
    } else {
      NegOf(c, p);
    }
  }

  lemma NegOfIdentity(c: Curve)
    requires c.l > 0
    ensures Neg(c, 0) == 0
  {
    ModSmall(0, 8 * c.l);
  }

  lemma DecompressesPoint(l: nat, p: int)
    requires 0 < l && 0 <= p < 8 * l
    requires Digits(l, p)[31] < 0x80 && FromLe(Digits(l, p)) == Distance(l, p)
    ensures |Compress(l, p)| == 32 && Decompress(l, Compress(l, p)) == Some(p)
    ensures Compress(l, p)[31] / 0x80 == if p > 4 * l then 1 else 0
  {
    hide FromLe, Digits;
    var s := Digits(l, p);
    assert Masked(Compress(l, p)) == s;
  }

  lemma ExampleEdwards(l: nat, point: int, digest: seq<byte>, p: int)
    requires 0 < l < 32 * Pow256(31) && 0 <= p < 8 * l
    ensures EdwardsAt(Example(l, point, digest), p)
    ensures SignBit(Example(l, point, digest), p) == if p > 4 * l then 1 else 0
  {
    var c := Example(l, point, digest);
    Negated(l, point, digest, p);
    var q := Neg(c, p);
    hide Pow256, Digits, FromLe, Compress, Decompress, Neg;
    SmallDigits(l, p);
    SmallDigits(l, q);
    DecompressesPoint(l, p);
    DecompressesPoint(l, q);
  }

  /** The digits of a point: below 2^255, shared with its negative, and zero for the identity only. */
  lemma DigitFacts(l: nat, p: int)
    requires 0 < l < 32 * Pow256(31) && 0 <= p < 8 * l
    ensures Digits(l, p)[31] < 0x80 && FromLe(Digits(l, p)) == Distance(l, p)
    ensures p != 0 ==> Digits(l, p) == Digits(l, 8 * l - p)
    ensures Digits(l, p) == seq(32, _ => 0) <==> p == 0
  {
    SmallDigits(l, p);
    ZeroDigits(32);
    hide Pow256, ToLe, FromLe;
  }

  lemma ExampleMontgomery(l: nat, point: int, digest: seq<byte>, p: int)
    requires 0 < l < 32 * Pow256(31) && 0 <= p < 8 * l
    ensures MontgomeryAt(Example(l, point, digest), p)
  {
    hide Pow256, FromLe, Digits, Compress, Decompress;
    Negated(l, point, digest, p);
    DigitFacts(l, p);
    DigitFacts(l, 0);
    ExampleEdwards(l, point, digest, p);
    hide Neg, SignBit;
  }

  lemma ExampleLadder(l: nat, point: int, digest: seq<byte>, n: int, u: Bytes32)
    requires l > 0
    ensures LadderAt(Example(l, point, digest), n, u)
  {
  }

  /** Every prime of the right size is the order of the basepoint of some lawful curve. */
  lemma LawsAreConsistent(l: nat, point: int, digest: seq<byte>)
    requires Prime(l) && 16 * Pow256(31) < l < 32 * Pow256(31)
    requires 0 <= point < 8 * l && |digest| == 64
    ensures Lawful(Example(l, point, digest)) && Example(l, point, digest).l == l
  {
    var c := Example(l, point, digest);
    ExampleIsEdwards(l, point, digest);
    ExampleIsMontgomery(l, point, digest);
    assert LawfulHashes(c);
    hide Example, Prime, Pow256, LawfulEdwards, LawfulMontgomery, LawfulHashes;
  }

  lemma ExampleIsEdwards(l: nat, point: int, digest: seq<byte>)
    requires 0 < l < 32 * Pow256(31)
    ensures LawfulEdwards(Example(l, point, digest))
  {
    var c := Example(l, point, digest);
    hide Pow256, Compress, EdwardsAt;
    forall p | IsPoint(c, p) ensures EdwardsAt(c, p) {
      ExampleEdwards(l, point, digest, p);
    }
  }

  lemma ExampleIsMontgomery(l: nat, point: int, digest: seq<byte>)
    requires 0 < l < 32 * Pow256(31)
    ensures LawfulMontgomery(Example(l, point, digest))
  {
    var c := Example(l, point, digest);
    hide Pow256, Mont, Ladder, MontgomeryAt, LadderAt;
    forall p | IsPoint(c, p) ensures MontgomeryAt(c, p) {
      ExampleMontgomery(l, point, digest, p);
    }
    forall n, u: Bytes32 ensures LadderAt(c, n, u) {
      ExampleLadder(l, point, digest, n, u);
    }
  }
}
