/** Machine integers and their byte encodings. */
module Bytes {
  type byte = x: int | 0 <= x < 0x100
  type u32 = x: int | 0 <= x < 0x1_0000_0000
  type u64 = x: int | 0 <= x < 0x1_0000_0000_0000_0000

  const U32_MAX: u32 := 0xFFFF_FFFF
  const U64_MAX: u64 := 0xFFFF_FFFF_FFFF_FFFF

  type Bytes32 = s: seq<byte> | |s| == 32 witness seq(32, _ => 0)
  type Bytes33 = s: seq<byte> | |s| == 33 witness seq(33, _ => 0)
  type Bytes96 = s: seq<byte> | |s| == 96 witness seq(96, _ => 0)

  /** u32::to_be_bytes */
  function U32ToBe(x: u32): (s: seq<byte>)
    ensures |s| == 4
  {
    [x / 0x100 / 0x100 / 0x100, x / 0x100 / 0x100 % 0x100, x / 0x100 % 0x100, x % 0x100]
  }

  /** u32::from_be_bytes */
  function U32FromBe(s: seq<byte>): u32
    requires |s| == 4
  {
    var a: int, b: int, c: int, d: int := s[0], s[1], s[2], s[3];
    ((a * 0x100 + b) * 0x100 + c) * 0x100 + d
  }

  lemma U32DecodesEncoding(x: u32)
    ensures U32FromBe(U32ToBe(x)) == x
  {
    var y: int := x / 0x100;
    var z: int := y / 0x100;
    assert z == z / 0x100 * 0x100 + z % 0x100;
    assert y == z * 0x100 + y % 0x100;
    assert x == y * 0x100 + x % 0x100;
  }

  lemma U32EncodesDecoding(s: seq<byte>)
    requires |s| == 4
    ensures U32ToBe(U32FromBe(s)) == s
  {
    var x := U32FromBe(s);
    var a: int, b: int, c: int := s[0], s[1], s[2];
    assert x / 0x100 == (a * 0x100 + b) * 0x100 + c;
    assert x / 0x100 / 0x100 == a * 0x100 + b;
    assert x / 0x100 / 0x100 / 0x100 == a;
  }

  /** u64::to_be_bytes */
  function U64ToBe(x: u64): (s: seq<byte>)
    ensures |s| == 8
  {
    U32ToBe(x / 0x1_0000_0000) + U32ToBe(x % 0x1_0000_0000)
  }

  lemma U64EncodingInjective(x: u64, y: u64)
    requires U64ToBe(x) == U64ToBe(y)
    ensures x == y
  {
    var xs, ys := U64ToBe(x), U64ToBe(y);
    assert U32ToBe(x / 0x1_0000_0000) == xs[..4] && U32ToBe(y / 0x1_0000_0000) == ys[..4];
    assert U32ToBe(x % 0x1_0000_0000) == xs[4..] && U32ToBe(y % 0x1_0000_0000) == ys[4..];
    U32DecodesEncoding(x / 0x1_0000_0000);
    U32DecodesEncoding(y / 0x1_0000_0000);
    U32DecodesEncoding(x % 0x1_0000_0000);
    U32DecodesEncoding(y % 0x1_0000_0000);
  }

  /** The number a byte string writes, most significant byte first. */
  function FromBe(s: seq<byte>): nat {
    if s == [] then 0 else 0x100 * FromBe(s[..|s| - 1]) + s[|s| - 1]
  }

  /** u32::from_be_bytes reads it. */
  lemma FromBeOfFour(s: seq<byte>)
    requires |s| == 4
    ensures FromBe(s) == U32FromBe(s)
  {
    assert s[..3][..2] == s[..2] && s[..2][..1] == s[..1] && s[..1][..0] == [];
    assert FromBe(s[..1]) == s[0];
    assert FromBe(s[..2]) == 0x100 * FromBe(s[..1]) + s[1];
    assert FromBe(s[..3]) == 0x100 * FromBe(s[..2]) + s[2];
  }

  /** u32::to_be_bytes writes its number big-endian. */
  lemma U32IsBigEndian(x: u32)
    ensures FromBe(U32ToBe(x)) == x
  {
    U32DecodesEncoding(x);
    FromBeOfFour(U32ToBe(x));
  }

  lemma {:induction false} FromBeConcat(s: seq<byte>, t: seq<byte>)
    requires |t| == 4
    ensures FromBe(s + t) == 0x1_0000_0000 * FromBe(s) + FromBe(t)
  {
    FromBeOfFour(t);
    assert (s + t)[..|s| + 3] == s + t[..3];
    assert (s + t[..3])[..|s| + 2] == s + t[..2];
    assert (s + t[..2])[..|s| + 1] == s + t[..1];
    assert (s + t[..1])[..|s|] == s;
    var n: int := FromBe(s);
    assert FromBe(s + t[..1]) == 0x100 * n + t[0];
    assert FromBe(s + t[..2]) == 0x100 * FromBe(s + t[..1]) + t[1];
    assert FromBe(s + t[..3]) == 0x100 * FromBe(s + t[..2]) + t[2];
    assert FromBe(s + t) == 0x100 * FromBe(s + t[..3]) + t[3];
  }

  /** u64::to_be_bytes writes its number big-endian. */
  lemma U64IsBigEndian(x: u64)
    ensures FromBe(U64ToBe(x)) == x
  {
    U32IsBigEndian(x / 0x1_0000_0000);
    U32IsBigEndian(x % 0x1_0000_0000);
    FromBeConcat(U32ToBe(x / 0x1_0000_0000), U32ToBe(x % 0x1_0000_0000));
  }

  // ---- Bit operations ----

  /** The bits of a byte. */
  function Bits(b: nat): (x: bv8)
    requires b < 0x100
    ensures x as int == b
  {
    if b == 0 then 0 else Bits(b - 1) + 1
  }

  /** u8 & u8 */
  function And(b: byte, mask: bv8): byte {
    (Bits(b) & mask) as int
  }

  /** u8 | u8 */
  function Or(b: byte, mask: bv8): byte {
    (Bits(b) | mask) as int
  }

  lemma LowBitsCleared(b: byte)
    ensures And(b, 248) == b - b % 8
  {
    LowBits(Bits(b));
  }

  lemma LowBits(x: bv8)
    ensures (x & 248) as int == x as int - x as int % 8
  {
    assert (x & 248) as int == x as int - (x & 7) as int;
    assert (x & 7) as int == x as int % 8;
  }

  lemma TopBitCleared(b: byte)
    ensures And(b, 127) == b % 0x80
  {
    LowSevenBits(Bits(b));
  }

  lemma LowSevenBits(x: bv8)
    ensures (x & 127) as int == x as int % 0x80
  {
  }

  lemma SecondBitSet(b: byte)
    requires b < 0x80
    ensures Or(b, 64) == 0x40 + b % 0x40
  {
    var x := Bits(b);
    assert x < 128;
    assert x | 64 == 64 + (x & 63);
    assert (64 + (x & 63)) as int == 64 + (x & 63) as int;
    assert (x & 63) as int == x as int % 0x40;
  }

  lemma TopBits(b: byte)
    ensures Or(And(b, 127), 64) == 0x40 + b % 0x40
  {
    TopBitCleared(b);
    hide And, Or;
    var x: int := b;
    assert x % 0x80 % 0x40 == x % 0x40;
    SecondBitSet(b % 0x80);
  }
}
