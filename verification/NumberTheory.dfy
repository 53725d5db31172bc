/** Residues, inverses modulo a prime, and little-endian byte strings. */
module NumberTheory {
  import opened Bytes

  // ---- Residues ----

  lemma MulNonNegative(m: int, d: int)
    requires m >= 0 && d >= 0
    ensures m * d >= 0
  {
  }

  lemma MulMonotone(m: int, x: int, y: int)
    requires m >= 0
    ensures x <= y ==> m * x <= m * y
  {
    if x <= y {
      MulNonNegative(m, y - x);
      assert m * (y - x) == m * y - m * x;
    }
  }

  /** The only multiple of m strictly between -m and m is zero. */
  lemma SmallMultiple(m: int, d: int)
    requires m > 0 && -m < m * d < m
    ensures d == 0
  {
    MulMonotone(m, 1, d);
    MulMonotone(m, d, -1);
  }

  lemma QuotientUnique(m: nat, q: int, r: int, q': int, r': int)
    requires m > 0 && m * q + r == m * q' + r' && 0 <= r < m && 0 <= r' < m
    ensures q == q' && r == r'
  {
    assert m * (q - q') == m * q - m * q';
    SmallMultiple(m, q - q');
  }

  /** Adding a multiple of the modulus does not change the residue. */
  lemma ModShift(a: int, k: int, m: nat)
    requires m > 0
    ensures (a + m * k) % m == a % m
  {
    var b := a + m * k;
    assert b == m * (b / m) + b % m;
    assert a == m * (a / m) + a % m;
    assert m * (a / m + k) == m * (a / m) + m * k;
    QuotientUnique(m, b / m, b % m, a / m + k, a % m);
  }

  lemma NegResidue(n: nat, p: int)
    requires 0 < p < n
    ensures (-p) % n == n - p
  {
    assert -p == (n - p) + n * (-1);
    ModShift(n - p, -1, n);
    QuotientUnique(n, (n - p) / n, (n - p) % n, 0, n - p);
  }

  lemma ModMulRight(a: int, b: int, m: nat)
    requires m > 0
    ensures (a * (b % m)) % m == (a * b) % m
  {
    assert b == m * (b / m) + b % m;
    assert a * b == a * (b % m) + m * (a * (b / m)) by {
      assert a * (m * (b / m) + b % m) == a * (m * (b / m)) + a * (b % m);
      assert a * (m * (b / m)) == m * (a * (b / m));
    }
    ModShift(a * (b % m), a * (b / m), m);
  }

  /** Equal residues: the difference is a multiple of the modulus. */
  lemma SameResidue(a: int, b: int, m: nat) returns (k: int)
    requires m > 0 && a % m == b % m
    ensures a - b == m * k
  {
    k := a / m - b / m;
    assert a == m * (a / m) + a % m && b == m * (b / m) + b % m;
    assert m * (a / m - b / m) == m * (a / m) - m * (b / m);
  }

  lemma ResidueFrom(a: int, b: int, m: nat, k: int)
    requires m > 0 && a - b == m * k
    ensures a % m == b % m
  {
    ModShift(b, k, m);
  }

  // ---- Primes ----

  ghost predicate Prime(p: nat) {
    p > 1 && forall d: nat | 1 < d < p :: p % d != 0
  }

  /** The extended Euclidean algorithm. */
  lemma {:induction false} Bezout(a: nat, b: nat) returns (g: nat, x: int, y: int, ka: nat, kb: nat)
    requires a > 0
    ensures g > 0 && a * x + b * y == g && a == ka * g && b == kb * g
    decreases b
  {
    if b == 0 {
      g, x, y, ka, kb := a, 1, 0, 1, 0;
    } else {
      var x', y', kr;
      g, x', y', kb, kr := Bezout(b, a % b);
      var q := a / b;
      assert a == b * q + a % b;
      x, y := y', x' - q * y';
      ka := kb * q + kr;
      assert b * x' + (a % b) * y' == g;
      assert a * y' == (b * q) * y' + (a % b) * y' by {
        assert (b * q + a % b) * y' == (b * q) * y' + (a % b) * y';
      }
      assert b * (x' - q * y') == b * x' - b * (q * y');
      assert (b * q) * y' == b * (q * y');
      assert (kb * q + kr) * g == kb * q * g + kr * g;
      assert kb * q * g == (kb * g) * q;
    }
  }

  lemma DivisorDivides(n: nat, k: nat, g: nat)
    requires g > 0 && n == k * g
    ensures n % g == 0
  {
    ModShift(0, k, g);
    assert n == 0 + g * k;
  }

  /** A number that is not a multiple of a prime has an inverse modulo it. */
  lemma Inverse(p: nat, d: int) returns (u: int, t: int)
    requires Prime(p) && d % p != 0
    ensures u * d == 1 + p * t
  {
    var r: nat := d % p;
    var g, x, y, ka, kb := Bezout(p, r);
    assert g <= r by {
      assert kb >= 1;
      assert kb * g >= g;
    }
    DivisorDivides(p, ka, g);
    assert g == 1;
    u := y;
    var q := d / p;
    assert d == p * q + r;
    t := y * q - x;
    assert y * d == y * (p * q) + y * r;
    assert y * (p * q) == p * (y * q);
    assert p * (y * q - x) == p * (y * q) - p * x;
  }

  /** Euclid: a prime that divides a product divides a factor. */
  lemma PrimeDividesFactor(p: nat, a: int, b: int)
    requires Prime(p) && (a * b) % p == 0 && a % p != 0
    ensures b % p == 0
  {
    var u, t := Inverse(p, a);
    var k := SameResidue(a * b, 0, p);
    assert b == u * a * b - p * t * b by {
      assert (1 + p * t) * b == b + p * t * b;
    }
    assert u * a * b == u * (a * b);
    assert u * (p * k) == p * (u * k);
    assert p * t * b == p * (t * b);
    assert b == p * (u * k - t * b) by {
      assert p * (u * k - t * b) == p * (u * k) - p * (t * b);
    }
    ModShift(0, u * k - t * b, p);
  }

  // ---- Little-endian byte strings ----

  function Pow256(n: nat): (r: nat)
    ensures r > 0
  {
    if n == 0 then 1 else 0x100 * Pow256(n - 1)
  }

  function FromLe(s: seq<byte>): nat {
    if s == [] then 0 else s[0] + 0x100 * FromLe(s[1..])
  }

  function ToLe(n: nat, len: nat): (s: seq<byte>)
    ensures |s| == len
  {
    if len == 0 then [] else [n % 0x100] + ToLe(n / 0x100, len - 1)
  }

  lemma {:induction false} FromLeBound(s: seq<byte>)
    ensures FromLe(s) < Pow256(|s|)
  {
    if s != [] {
      FromLeBound(s[1..]);
    }
  }

  lemma {:induction false} LeRoundTrip(n: nat, len: nat)
    requires n < Pow256(len)
    ensures FromLe(ToLe(n, len)) == n
  {
    if len > 0 {
      LeRoundTrip(n / 0x100, len - 1);
      assert ToLe(n, len)[1..] == ToLe(n / 0x100, len - 1);
    }
  }

  /** The last byte is the most significant one. */
  lemma {:induction false} FromLeLast(s: seq<byte>)
    requires s != []
    ensures FromLe(s) == FromLe(s[..|s| - 1]) + Pow256(|s| - 1) * s[|s| - 1]
  {
    if |s| > 1 {
      FromLeLast(s[1..]);
      assert s[1..][..|s| - 2] == s[..|s| - 1][1..];
      var p: int, b: int := Pow256(|s| - 2), s[|s| - 1];
      assert 0x100 * (p * b) == (0x100 * p) * b;
    } else {
      assert s[1..] == [];
    }
  }

  /** Strings of one length that write the same number are equal. */
  lemma {:induction false} FromLeInjective(s: seq<byte>, t: seq<byte>)
    requires |s| == |t| && FromLe(s) == FromLe(t)
    ensures s == t
  {
    if s != [] {
      QuotientUnique(0x100, FromLe(s[1..]), s[0], FromLe(t[1..]), t[0]);
      FromLeInjective(s[1..], t[1..]);
      assert s == [s[0]] + s[1..] && t == [t[0]] + t[1..];
    }
  }
}
