/** Fixed-width integers of the C sources, as natural numbers: bytes, exclusive or,
    bitwise and, and the big- and little-endian byte strings. */
module Bits {

  type byte = x: int | 0 <= x < 256
  type u16 = x: int | 0 <= x < 0x1_0000
  type u32 = x: int | 0 <= x < 0x1_0000_0000
  type u64 = x: int | 0 <= x < 0x1_0000_0000_0000_0000

  function Pow2(n: nat): (p: nat)
    ensures p >= 1
  {
    if n == 0 then 1 else 2 * Pow2(n - 1)
  }

  lemma ProductAtLeast(a: nat, b: nat)
    requires b >= 1
    ensures a <= a * b
  {
    assert a * b == a + a * (b - 1);
  }

  lemma QuotientNoLarger(v: nat, d: nat)
    requires d >= 1
    ensures 0 <= v / d <= v
  {
    var q := v / d;
    assert v == q * d + v % d;
    ProductAtLeast(q, d);
  }

  lemma ProductDifference(n: nat, q: int, q': int)
    ensures n * (q - q') == n * q - n * q'
  {
  }

  lemma OnlyZero(n: nat, k: int)
    requires n * k < n && n * -k < n
    ensures k == 0
  {
    if k > 0 {
      ProductAtLeast(n, k);
    } else if k < 0 {
      ProductAtLeast(n, -k);
    }
  }

  lemma UniqueRemainder(b: int, n: nat, q: int, r: int)
    requires n > 0 && 0 <= r < n && b == n * q + r
    ensures b % n == r
  {
    var q', r' := b / n, b % n;
    assert b == n * q' + r';
    ProductDifference(n, q, q');
    ProductDifference(n, q', q);
    OnlyZero(n, q - q');
  }

  lemma UniqueQuotient(b: int, n: nat, q: int, r: int)
    requires n > 0 && 0 <= r < n && b == n * q + r
    ensures b / n == q
  {
    var q', r' := b / n, b % n;
    assert b == n * q' + r';
    ProductDifference(n, q, q');
    ProductDifference(n, q', q);
    OnlyZero(n, q - q');
  }

  lemma QuotientIs(a: nat, n: nat) returns (q: nat, r: nat)
    requires n > 0
    ensures a / n == q && a == n * q + r && r < n
  {
    q, r := a / n, a % n;
  }

  lemma NestedQuotient(a: nat, m: nat, p: nat)
    requires m >= 1 && p >= 1
    ensures m * p >= 1 && a / (m * p) == a / m / p
  {
    var b, c := QuotientIs(a, m);
    var q, r := QuotientIs(b, p);
    NestedRemainder(m, p, q, r, b, c);
    UniqueQuotient(a, m * p, q, m * r + c);
  }

  lemma NestedRemainder(m: nat, p: nat, q: nat, r: nat, b: nat, c: nat)
    requires m >= 1 && r < p && c < m && b == p * q + r
    ensures m * p >= 1 && m * b + c == (m * p) * q + (m * r + c) && m * r + c < m * p
  {
    ProductDifference(m, p, r);
    ProductAtLeast(m, p - r);
    ProductDifference(m, b, r);
    Regroup(m, p, q);
  }

  lemma Regroup(a: int, b: int, c: int)
    ensures a * (b * c) == (a * b) * c
  {
  }

  lemma SameRemainder(a: int, b: int, n: nat, k: int)
    requires n > 0 && b == a + n * k
    ensures a % n == b % n
  {
    var q, r := a / n, a % n;
    assert a == n * q + r;
    assert b == n * (q + k) + r by { assert n * (q + k) == n * q + n * k; }
    UniqueRemainder(b, n, q + k, r);
  }

  lemma {:induction false} Pow2Add(a: nat, b: nat)
    ensures Pow2(a + b) == Pow2(a) * Pow2(b)
  {
    if a == 0 {
    } else {
      Pow2Add(a - 1, b);
      assert Pow2(a + b) == 2 * Pow2(a - 1 + b);
      assert 2 * (Pow2(a - 1) * Pow2(b)) == (2 * Pow2(a - 1)) * Pow2(b);
    }
  }

  lemma Pow2Values()
    ensures Pow2(8) == 0x100 && Pow2(16) == 0x1_0000 && Pow2(24) == 0x100_0000
    ensures Pow2(31) == 0x8000_0000 && Pow2(32) == 0x1_0000_0000
    ensures Pow2(64) == 0x1_0000_0000_0000_0000
  {
    assert Pow2(8) == 256;
    Pow2Add(8, 8);
    Pow2Add(8, 16);
    Pow2Add(8, 24);
    Pow2Add(32, 32);
    assert Pow2(32) == 2 * Pow2(31);
  }

  // ----- exclusive or and bitwise and, bit by bit -----

  function Xor(a: nat, b: nat): nat
    decreases a + b
  {
    if a == 0 && b == 0 then 0 else 2 * Xor(a / 2, b / 2) + (if a % 2 == b % 2 then 0 else 1)
  }

  function And(a: nat, b: nat): nat
    decreases a + b
  {
    if a == 0 || b == 0 then 0 else 2 * And(a / 2, b / 2) + (a % 2) * (b % 2)
  }

  lemma {:induction false} XorZero(a: nat)
    ensures Xor(a, 0) == a && Xor(0, a) == a
  {
    if a == 0 {
    } else {
      XorZero(a / 2);
    }
  }

  lemma {:induction false} XorCommutes(a: nat, b: nat)
    ensures Xor(a, b) == Xor(b, a)
    decreases a + b
  {
    if a == 0 && b == 0 {
    } else {
      XorCommutes(a / 2, b / 2);
    }
  }

  lemma {:induction false} XorSelf(a: nat)
    ensures Xor(a, a) == 0
  {
    if a == 0 {
    } else {
      XorSelf(a / 2);
    }
  }

  /** Halving and parity of an exclusive or are those of its operands. */
  lemma XorHalf(a: nat, b: nat)
    ensures Xor(a, b) / 2 == Xor(a / 2, b / 2)
    ensures Xor(a, b) % 2 == if a % 2 == b % 2 then 0 else 1
  {
  }

  /** A number is determined by its half and its parity. */
  lemma FromHalf(a: nat, b: nat)
    requires a / 2 == b / 2 && a % 2 == b % 2
    ensures a == b
  {
    assert a == 2 * (a / 2) + a % 2;
  }

  lemma {:induction false} XorAssociates(a: nat, b: nat, c: nat)
    ensures Xor(Xor(a, b), c) == Xor(a, Xor(b, c))
    decreases a + b + c
  {
    if a == 0 {
      XorZero(b);
      XorZero(Xor(b, c));
    } else {
      var ab, bc := Xor(a, b), Xor(b, c);
      XorHalf(a, b);
      XorHalf(b, c);
      XorHalf(ab, c);
      XorHalf(a, bc);
      XorAssociates(a / 2, b / 2, c / 2);
      FromHalf(Xor(ab, c), Xor(a, bc));
    }
  }

  lemma XorCancels(a: nat, b: nat)
    ensures Xor(Xor(a, b), b) == a
  {
    XorAssociates(a, b, b);
    XorSelf(b);
    XorZero(a);
  }

  lemma XorInjective(a: nat, b: nat, c: nat)
    requires Xor(a, c) == Xor(b, c)
    ensures a == b
  {
    XorCancels(a, c);
    XorCancels(b, c);
  }

  lemma {:induction false} XorBound(a: nat, b: nat, n: nat)
    requires a < Pow2(n) && b < Pow2(n)
    ensures Xor(a, b) < Pow2(n)
    decreases n
  {
    if n == 0 || (a == 0 && b == 0) {
    } else {
      XorBound(a / 2, b / 2, n - 1);
    }
  }

  function XorByte(a: byte, b: byte): byte
  {
    assert Pow2(8) == 256;
    XorBound(a, b, 8);
    Xor(a, b)
  }

  // ----- byte order -----

  /** Two bytes, the high one first. */
  function TwoBytes(high: int, low: int): (v: u16)
    requires 0 <= high < 256 && 0 <= low < 256
  {
    256 * high + low
  }

  function BigEndian(v: nat, n: nat): (s: seq<byte>)
    ensures |s| == n
  {
    if n == 0 then [] else BigEndian(v / 256, n - 1) + [v % 256]
  }

  function FromBigEndian(s: seq<byte>): nat
  {
    if s == [] then 0 else 256 * FromBigEndian(s[..|s| - 1]) + s[|s| - 1]
  }

  function LittleEndian(v: nat, n: nat): (s: seq<byte>)
    ensures |s| == n
  {
    if n == 0 then [] else [v % 256] + LittleEndian(v / 256, n - 1)
  }

  function FromLittleEndian(s: seq<byte>): nat
  {
    if s == [] then 0 else s[0] + 256 * FromLittleEndian(s[1..])
  }

  lemma BigEndianPair(v: u16)
    ensures BigEndian(v, 2) == [v / 256, v % 256]
  {
    assert BigEndian(v, 2) == BigEndian(v / 256, 1) + [v % 256];
    assert BigEndian(v / 256, 1) == BigEndian(v / 256 / 256, 0) + [v / 256 % 256];
  }

  lemma {:induction false} BigEndianInverse(v: nat, n: nat)
    requires v < Pow2(8 * n)
    ensures FromBigEndian(BigEndian(v, n)) == v
    decreases n
  {
    if n == 0 {
    } else {
      assert Pow2(8) == 256;
      Pow2Add(8, 8 * (n - 1));
      BigEndianInverse(v / 256, n - 1);
      assert BigEndian(v, n)[..n - 1] == BigEndian(v / 256, n - 1);
    }
  }

  lemma {:induction false} LittleEndianInverse(v: nat, n: nat)
    requires v < Pow2(8 * n)
    ensures FromLittleEndian(LittleEndian(v, n)) == v
    decreases n
  {
    if n == 0 {
    } else {
      assert Pow2(8) == 256;
      Pow2Add(8, 8 * (n - 1));
      LittleEndianInverse(v / 256, n - 1);
      assert LittleEndian(v, n)[1..] == LittleEndian(v / 256, n - 1);
    }
  }

  lemma {:induction false} FromBigEndianBound(s: seq<byte>)
    ensures FromBigEndian(s) < Pow2(8 * |s|)
  {
    if s == [] {
    } else {
      FromBigEndianBound(s[..|s| - 1]);
      assert Pow2(8) == 256;
      Pow2Add(8, 8 * (|s| - 1));
    }
  }

  lemma {:induction false} BigEndianOfValue(s: seq<byte>)
    ensures BigEndian(FromBigEndian(s), |s|) == s
  {
    if s == [] {
    } else {
      BigEndianOfValue(s[..|s| - 1]);
      assert s == s[..|s| - 1] + [s[|s| - 1]];
    }
  }

  // ----- where each byte stands -----

  lemma ByteBelow(v: nat, m: nat)
    ensures v / Pow2(8 * (m + 1)) == v / 256 / Pow2(8 * m)
  {
    assert Pow2(8) == 256;
    Pow2Add(8, 8 * m);
    NestedQuotient(v, 256, Pow2(8 * m));
  }

  /** Network order: the first byte is the most significant. */
  lemma {:induction false} BigEndianAt(v: nat, n: nat, k: nat)
    requires k < n
    ensures BigEndian(v, n)[k] == v / Pow2(8 * (n - 1 - k)) % 256
    decreases n
  {
    if k == n - 1 {
      assert Pow2(0) == 1;
    } else {
      BigEndianAt(v / 256, n - 1, k);
      ByteBelow(v, n - 2 - k);
    }
  }

  /** And the other way round: the first byte is the least significant. */
  lemma {:induction false} LittleEndianAt(v: nat, n: nat, k: nat)
    requires k < n
    ensures LittleEndian(v, n)[k] == v / Pow2(8 * k) % 256
    decreases n
  {
    if k == 0 {
      assert Pow2(0) == 1;
    } else {
      LittleEndianAt(v / 256, n - 1, k - 1);
      ByteBelow(v, k - 1);
    }
  }
}
