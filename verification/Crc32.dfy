/** The reflected CRC-32 of src/codec.c, and what it detects: every corruption confined to
    32 consecutive bits of a stream of any length. */
module Crc32 {
  import opened Bits

  const POLYNOMIAL: u32 := 0xedb8_8320
  const ALL_ONES: u32 := 0xffff_ffff

  type bit = x: int | 0 <= x < 2

  /** The terms of the CRC-32 polynomial, x^32 aside: in the reflected word, x^e is bit 31 - e. */
  lemma PolynomialTerms()
    ensures POLYNOMIAL == Pow2(31 - 26) + Pow2(31 - 23) + Pow2(31 - 22) + Pow2(31 - 16) + Pow2(31 - 12)
                          + Pow2(31 - 11) + Pow2(31 - 10) + Pow2(31 - 8) + Pow2(31 - 7) + Pow2(31 - 5) + Pow2(31 - 4)
                          + Pow2(31 - 2) + Pow2(31 - 1) + Pow2(31 - 0)
  {
    assert Pow2(0) == 1 && Pow2(5) == 0x20 && Pow2(8) == 0x100 && Pow2(9) == 0x200 && Pow2(15) == 0x8000;
    assert Pow2(19) == 0x8_0000 && Pow2(20) == 0x10_0000 && Pow2(21) == 0x20_0000 && Pow2(23) == 0x80_0000;
    assert Pow2(24) == 0x100_0000 && Pow2(26) == 0x400_0000 && Pow2(27) == 0x800_0000;
    assert Pow2(29) == 0x2000_0000 && Pow2(30) == 0x4000_0000 && Pow2(31) == 0x8000_0000;
  }

  /** One turn of the inner loop: shift right, and subtract the polynomial on a carry. */
  function Shift(c: u32): u32
  {
    Pow2Values();
    XorBound(c / 2, POLYNOMIAL, 32);
    XorBound(c / 2, 0, 32);
    Xor(c / 2, if c % 2 == 1 then POLYNOMIAL else 0)
  }

  function Shifts(c: u32, n: nat): u32
    decreases n
  {
    if n == 0 then c else Shifts(Shift(c), n - 1)
  }

  function XorWord(a: u32, b: u32): u32
  {
    Pow2Values();
    XorBound(a, b, 32);
    Xor(a, b)
  }

  /** The register after the bytes of data, started from c. */
  function Register(c: u32, data: seq<byte>): u32
    decreases |data|
  {
    if data == [] then c else Register(Shifts(XorWord(c, data[0]), 8), data[1..])
  }

  function Update(crc: u32, data: seq<byte>): u32
  {
    ALL_ONES - Register(ALL_ONES - crc, data)
  }

  method Crc32Update(crc: u32, data: seq<byte>) returns (r: u32)
    ensures r == Update(crc, data)
  {
    hide Shift, XorWord;
    var c: u32 := ALL_ONES - crc;
    for i := 0 to |data|
      invariant Register(c, data[i..]) == Register(ALL_ONES - crc, data)
    {
      ghost var entering := c;
      c := XorWord(c, data[i]);
      for b := 0 to 8
        invariant Shifts(c, 8 - b) == Shifts(XorWord(entering, data[i]), 8)
      {
        c := Shift(c);
      }
      assert data[i..][1..] == data[i + 1..];
    }
    r := ALL_ONES - c;
  }

  lemma {:induction false} RegisterConcat(c: u32, a: seq<byte>, b: seq<byte>)
    ensures Register(c, a + b) == Register(Register(c, a), b)
    decreases |a|
  {
    if a == [] {
      assert a + b == b;
    } else {
      assert (a + b)[1..] == a[1..] + b;
      RegisterConcat(Shifts(XorWord(c, a[0]), 8), a[1..], b);
    }
  }

  /** A check value can be carried on: nothing has check value 0, and the check value of two
      pieces is that of the second started from that of the first. */
  lemma CheckContinues(crc: u32, a: seq<byte>, b: seq<byte>)
    ensures Update(0, []) == 0 && Update(Update(crc, a), b) == Update(crc, a + b)
  {
    hide Register;
    EmptyRegister(ALL_ONES);
    RegisterConcat(ALL_ONES - crc, a, b);
  }

  lemma EmptyRegister(c: u32)
    ensures Register(c, []) == c
  {
  }

  // ----- the register one bit at a time -----

  function BitsOf(b: nat, n: nat): (s: seq<bit>)
    ensures |s| == n
  {
    if n == 0 then [] else [b % 2] + BitsOf(b / 2, n - 1)
  }

  /** The bits of a byte string in the order the code consumes them. */
  function StreamBits(data: seq<byte>): (s: seq<bit>)
    ensures |s| == 8 * |data|
  {
    if data == [] then [] else BitsOf(data[0], 8) + StreamBits(data[1..])
  }

  function Value(bits: seq<bit>): nat
  {
    if bits == [] then 0 else bits[0] + 2 * Value(bits[1..])
  }

  function BitRegister(c: u32, bits: seq<bit>): u32
    decreases |bits|
  {
    if bits == [] then c else BitRegister(Shift(XorWord(c, bits[0])), bits[1..])
  }

  lemma {:induction false} ValueOfBits(b: nat, n: nat)
    requires b < Pow2(n)
    ensures Value(BitsOf(b, n)) == b
    decreases n
  {
    if n == 0 {
    } else {
      ValueOfBits(b / 2, n - 1);
      assert BitsOf(b, n)[1..] == BitsOf(b / 2, n - 1);
    }
  }

  lemma {:induction false} ValueBound(bits: seq<bit>)
    ensures Value(bits) < Pow2(|bits|)
  {
    if bits == [] {
    } else {
      ValueBound(bits[1..]);
    }
  }

  lemma ShortValueBound(bits: seq<bit>)
    requires |bits| <= 32
    ensures Value(bits) < 0x1_0000_0000
  {
    hide Pow2, Value;
    ValueBound(bits);
    Pow2Add(|bits|, 32 - |bits|);
    Pow2Values();
    ProductAtLeast(Pow2(|bits|), Pow2(32 - |bits|));
  }

  lemma {:induction false} ValueInjective(a: seq<bit>, b: seq<bit>)
    requires |a| == |b| && Value(a) == Value(b)
    ensures a == b
  {
    if a == [] {
    } else {
      assert a[0] == Value(a) % 2 == Value(b) % 2 == b[0];
      ValueInjective(a[1..], b[1..]);
      assert a == [a[0]] + a[1..] && b == [b[0]] + b[1..];
    }
  }

  /** Feeding a bit now and the word m at the following bits is feeding bit + 2m now. */
  lemma ShiftAbsorbs(c: u32, b: bit, m: nat)
    requires b + 2 * m < 0x1_0000_0000
    ensures Shift(XorWord(c, b + 2 * m)) == XorWord(Shift(XorWord(c, b)), m)
  {
    hide Xor, Pow2;
    var w := b + 2 * m;
    var carry := if XorWord(c, b) % 2 == 1 then POLYNOMIAL else 0;
    XorHalf(c, w);
    XorHalf(c, b);
    XorZero(c / 2);
    assert w / 2 == m && w % 2 == b && b / 2 == 0;
    XorAssociates(c / 2, m, carry);
    XorCommutes(m, carry);
    XorAssociates(c / 2, carry, m);
  }

  /** Up to 32 bits fed one by one are one exclusive or followed by that many shifts. */
  lemma {:induction false} BitsAreOneWord(c: u32, bits: seq<bit>)
    requires |bits| <= 32
    decreases |bits|
    ensures Value(bits) < 0x1_0000_0000
    ensures BitRegister(c, bits) == Shifts(XorWord(c, Value(bits)), |bits|)
  {
    ShortValueBound(bits);
    if bits == [] {
      XorZero(c);
    } else {
      BitsAreOneWord(Shift(XorWord(c, bits[0])), bits[1..]);
      ShiftAbsorbs(c, bits[0], Value(bits[1..]));
    }
  }

  lemma {:induction false} BitRegisterConcat(c: u32, a: seq<bit>, b: seq<bit>)
    ensures BitRegister(c, a + b) == BitRegister(BitRegister(c, a), b)
    decreases |a|
  {
    if a == [] {
      assert a + b == b;
    } else {
      assert (a + b)[1..] == a[1..] + b;
      BitRegisterConcat(Shift(XorWord(c, a[0])), a[1..], b);
    }
  }

  /** The byte loop of the code computes the bitwise register. */
  lemma {:induction false} RegisterIsBitwise(c: u32, data: seq<byte>)
    ensures Register(c, data) == BitRegister(c, StreamBits(data))
    decreases |data|
  {
    if data == [] {
    } else {
      var first := BitsOf(data[0], 8);
      assert Pow2(8) == 256;
      ValueOfBits(data[0], 8);
      BitsAreOneWord(c, first);
      BitRegisterConcat(c, first, StreamBits(data[1..]));
      RegisterIsBitwise(Shifts(XorWord(c, data[0]), 8), data[1..]);
    }
  }

  // ----- injectivity -----

  /** The top bit of the polynomial makes the carry visible, so no two words shift to one. */
  lemma ShiftInjective(a: u32, b: u32)
    requires Shift(a) == Shift(b)
    ensures a == b
  {
    if a % 2 == b % 2 {
      XorInjective(a / 2, b / 2, if a % 2 == 1 then POLYNOMIAL else 0);
      FromHalf(a, b);
    } else if a % 2 == 1 {
      CarryIsVisible(a / 2, b / 2);
    } else {
      CarryIsVisible(b / 2, a / 2);
    }
  }

  lemma CarryIsVisible(x: nat, y: nat)
    requires x < 0x8000_0000 && y < 0x8000_0000
    ensures Xor(x, POLYNOMIAL) != Xor(y, 0)
  {
    XorZero(y);
    if Xor(x, POLYNOMIAL) == y {
      XorCommutes(x, POLYNOMIAL);
      XorCancels(POLYNOMIAL, x);
      Pow2Values();
      XorBound(y, x, 31);
      assert false;
    }
  }

  lemma {:induction false} ShiftsInjective(a: u32, b: u32, n: nat)
    requires Shifts(a, n) == Shifts(b, n)
    ensures a == b
    decreases n
  {
    if n == 0 {
    } else {
      ShiftsInjective(Shift(a), Shift(b), n - 1);
      ShiftInjective(a, b);
    }
  }

  lemma {:induction false} BitRegisterInjective(a: u32, b: u32, bits: seq<bit>)
    requires BitRegister(a, bits) == BitRegister(b, bits)
    ensures a == b
    decreases |bits|
  {
    if bits == [] {
    } else {
      BitRegisterInjective(Shift(XorWord(a, bits[0])), Shift(XorWord(b, bits[0])), bits[1..]);
      ShiftInjective(XorWord(a, bits[0]), XorWord(b, bits[0]));
      XorInjective(a, b, bits[0]);
    }
  }

  /** Two streams of any length that differ only inside one run of at most 32 consecutive
      bits, and do differ there, have different check values. */
  lemma BurstDetected(crc: u32, xs: seq<byte>, ys: seq<byte>,
                      before: seq<bit>, a: seq<bit>, b: seq<bit>, after: seq<bit>)
    requires StreamBits(xs) == before + a + after
    requires StreamBits(ys) == before + b + after
    requires |a| == |b| <= 32 && a != b
    ensures Update(crc, xs) != Update(crc, ys)
  {
    hide Shift, Shifts, BitRegister, Register, Value, StreamBits, XorWord;
    var start: u32 := ALL_ONES - crc;
    RegisterIsBitwise(start, xs);
    RegisterIsBitwise(start, ys);
    BitRegisterConcat(start, before + a, after);
    BitRegisterConcat(start, before + b, after);
    BitRegisterConcat(start, before, a);
    BitRegisterConcat(start, before, b);
    var c := BitRegister(start, before);
    if Register(start, xs) == Register(start, ys) {
      BitRegisterInjective(BitRegister(c, a), BitRegister(c, b), after);
      ShortWordsDetected(c, a, b);
      assert false;
    }
  }

  lemma ShortWordsDetected(c: u32, a: seq<bit>, b: seq<bit>)
    requires |a| == |b| <= 32 && a != b
    ensures BitRegister(c, a) != BitRegister(c, b)
  {
    BitsAreOneWord(c, a);
    BitsAreOneWord(c, b);
    if BitRegister(c, a) == BitRegister(c, b) {
      ShiftsInjective(XorWord(c, Value(a)), XorWord(c, Value(b)), |a|);
      XorCommutes(c, Value(a));
      XorCommutes(c, Value(b));
      XorInjective(Value(a), Value(b), c);
      ValueInjective(a, b);
      assert false;
    }
  }

  lemma {:induction false} StreamBitsConcat(a: seq<byte>, b: seq<byte>)
    ensures StreamBits(a + b) == StreamBits(a) + StreamBits(b)
    decreases |a|
  {
    if a == [] {
      assert a + b == b;
    } else {
      assert (a + b)[1..] == a[1..] + b;
      StreamBitsConcat(a[1..], b);
    }
  }

  lemma {:induction false} StreamBitsInjective(a: seq<byte>, b: seq<byte>)
    requires StreamBits(a) == StreamBits(b)
    ensures a == b
    decreases |a|
  {
    if a == [] {
    } else {
      assert BitsOf(a[0], 8) == StreamBits(a)[..8] == StreamBits(b)[..8] == BitsOf(b[0], 8);
      assert StreamBits(a[1..]) == StreamBits(a)[8..] == StreamBits(b)[8..] == StreamBits(b[1..]);
      assert Pow2(8) == 256;
      ValueOfBits(a[0], 8);
      ValueOfBits(b[0], 8);
      StreamBitsInjective(a[1..], b[1..]);
      assert a == [a[0]] + a[1..] && b == [b[0]] + b[1..];
    }
  }

  /** Corruption of up to four consecutive bytes is one such burst. */
  lemma FourBytesDetected(crc: u32, before: seq<byte>, a: seq<byte>, b: seq<byte>, after: seq<byte>)
    requires |a| == |b| <= 4 && a != b
    ensures Update(crc, before + a + after) != Update(crc, before + b + after)
  {
    StreamBitsConcat(before + a, after);
    StreamBitsConcat(before, a);
    StreamBitsConcat(before + b, after);
    StreamBitsConcat(before, b);
    if StreamBits(a) == StreamBits(b) {
      StreamBitsInjective(a, b);
      assert false;
    }
    BurstDetected(crc, before + a + after, before + b + after,
                  StreamBits(before), StreamBits(a), StreamBits(b), StreamBits(after));
  }
}
