/** The test provider's keystream: its mixing is one-to-one, so under one key no two sequence
    numbers, and under one sequence number no two keys, get the same bytes in any block of eight. */
module Keystream {
  import opened Bits
  import opened Providers
  import opened Tampering

  function Shifted(a: nat, k: nat): nat {
    QuotientNoLarger(a, Pow2(k));
    a / Pow2(k)
  }

  lemma {:induction false} XorOfHalves(a: nat, b: nat, k: nat)
    ensures Shifted(Xor(a, b), k) == Xor(Shifted(a, k), Shifted(b, k))
    decreases k
  {
    if k == 0 {
    } else {
      XorOfHalves(a / 2, b / 2, k - 1);
      XorHalf(a, b);
      HalvesTwice(a, k);
      HalvesTwice(b, k);
      HalvesTwice(Xor(a, b), k);
      hide Xor, Shifted;
    }
  }

  lemma HalvesTwice(a: nat, k: nat)
    requires k > 0
    ensures Shifted(a, k) == Shifted(a / 2, k - 1)
  {
    var p := Pow2(k - 1);
    assert Pow2(k) == 2 * p;
    NestedQuotient(a, 2, p);
  }

  /** A word xored with itself shifted right tells which word it was. */
  lemma XorShiftInjective(a: u64, b: u64, k: nat)
    requires k > 0 && Xor64(a, ShiftRight(a, k)) == Xor64(b, ShiftRight(b, k))
    ensures a == b
  {
    hide Xor, Pow2;
    var s, t, d := Shifted(a, k), Shifted(b, k), Xor(a, b);
    XorOfHalves(a, b, k);
    SameAsShifted(a, b, s, t);
    NotItsOwnShift(d, k);
    XorSelf(b);
    XorInjective(a, b, b);
  }

  lemma SameAsShifted(a: nat, b: nat, s: nat, t: nat)
    requires Xor(a, s) == Xor(b, t)
    ensures Xor(a, b) == Xor(s, t)
  {
    hide Xor;
    XorCancels(a, s);
    assert a == Xor(Xor(b, t), s);
    XorCommutes(b, t);
    XorAssociates(t, b, s);
    XorCommutes(b, s);
    XorAssociates(t, s, b);
    XorCancels(Xor(t, s), b);
    XorCommutes(t, s);
  }

  lemma NotItsOwnShift(d: nat, k: nat)
    requires k > 0 && d == Shifted(d, k)
    ensures d == 0
  {
    var p := Pow2(k);
    assert p == 2 * Pow2(k - 1) >= 2;
    var q, r := QuotientIs(d, p);
    assert q == d;
    hide Pow2, Shifted;
    TwiceAtLeast(p, d);
  }

  lemma TwiceAtLeast(p: nat, d: nat)
    requires p >= 2
    ensures p * d >= 2 * d
  {
    assert p * d == 2 * d + (p - 2) * d;
  }

  lemma MixInjective(a: u64, b: u64)
    requires Mix64(a) == Mix64(b)
    ensures a == b
  {
    hide Xor64, ShiftRight;
    var x, y := Xor64(a, ShiftRight(a, 30)), Xor64(b, ShiftRight(b, 30));
    var p, q := x * 0xbf58476d1ce4e5b9 % WORD, y * 0xbf58476d1ce4e5b9 % WORD;
    var u, v := Xor64(p, ShiftRight(p, 27)), Xor64(q, ShiftRight(q, 27));
    var r, t := u * 0x94d049bb133111eb % WORD, v * 0x94d049bb133111eb % WORD;
    XorShiftInjective(r, t, 31);
    InverseUndoes(u, 0x94d049bb133111eb, 0x319642b2d24d8ec3, 0x1cd336eda85f1453, WORD);
    InverseUndoes(v, 0x94d049bb133111eb, 0x319642b2d24d8ec3, 0x1cd336eda85f1453, WORD);
    XorShiftInjective(p, q, 27);
    InverseUndoes(x, 0xbf58476d1ce4e5b9, 0x96de1b173f119089, 0x70c3bca78f27f46c, WORD);
    InverseUndoes(y, 0xbf58476d1ce4e5b9, 0x96de1b173f119089, 0x70c3bca78f27f46c, WORD);
    XorShiftInjective(a, b, 30);
  }

  // ----- blocks of the stream -----

  /** The word that block j of a record's stream is cut from. */
  function StreamWord(key: u64, sequence: u64, j: nat): u64 {
    Mix64(Xor64(Xor64(key, sequence), j * 0x9e3779b97f4a7c15 % WORD))
  }

  lemma StreamByteOfWord(key: u64, sequence: u64, j: nat, i: nat)
    requires i < 8
    ensures StreamByte(key, sequence, 8 * j + i) == Shifted(StreamWord(key, sequence, j), 8 * i) % 256
  {
    hide Mix64, Xor64;
    assert (8 * j + i) / 8 == j && (8 * j + i) % 8 == i;
  }

  /** Eight bytes are the word they are cut from. */
  lemma {:induction false} BytesAreWord(v: nat, w: nat, n: nat)
    requires v < Pow2(8 * n) && w < Pow2(8 * n)
    requires forall i :: 0 <= i < n ==> Shifted(v, 8 * i) % 256 == Shifted(w, 8 * i) % 256
    ensures v == w
    decreases n
  {
    if n == 0 {
    } else {
      assert Pow2(8) == 256 && Pow2(0) == 1;
      assert Shifted(v, 8 * 0) % 256 == Shifted(w, 8 * 0) % 256;
      Pow2Add(8, 8 * (n - 1));
      forall i | 0 <= i < n - 1
        ensures Shifted(v / 256, 8 * i) % 256 == Shifted(w / 256, 8 * i) % 256
      {
        ByteShift(v, i);
        ByteShift(w, i);
        assert Shifted(v, 8 * (i + 1)) % 256 == Shifted(w, 8 * (i + 1)) % 256;
      }
      BytesAreWord(v / 256, w / 256, n - 1);
      assert v == 256 * (v / 256) + v % 256 && w == 256 * (w / 256) + w % 256;
    }
  }

  lemma ByteShift(v: nat, i: nat)
    ensures Shifted(v, 8 * (i + 1)) == Shifted(v / 256, 8 * i)
  {
    hide Pow2, Shifted;
    HalvesTwice(v, 8 * i + 8);
    HalvesTwice(v / 2, 8 * i + 7);
    HalvesTwice(v / 4, 8 * i + 6);
    HalvesTwice(v / 8, 8 * i + 5);
    HalvesTwice(v / 16, 8 * i + 4);
    HalvesTwice(v / 32, 8 * i + 3);
    HalvesTwice(v / 64, 8 * i + 2);
    HalvesTwice(v / 128, 8 * i + 1);
    assert v / 2 / 2 == v / 4 && v / 4 / 2 == v / 8 && v / 8 / 2 == v / 16 && v / 16 / 2 == v / 32;
    assert v / 32 / 2 == v / 64 && v / 64 / 2 == v / 128 && v / 128 / 2 == v / 256;
  }

  /** The same block of two streams is covered by different bytes unless their keys and sequence
      numbers mix to the same word. */
  lemma StreamsDiffer(key: u64, s: u64, key': u64, t: u64, j: nat)
    requires Xor64(key, s) != Xor64(key', t)
    ensures exists n: nat :: 8 * j <= n < 8 * j + 8 && StreamByte(key, s, n) != StreamByte(key', t, n)
  {
    hide Mix64, Xor64, StreamByte, Shifted;
    if forall n: nat :: 8 * j <= n < 8 * j + 8 ==> StreamByte(key, s, n) == StreamByte(key', t, n) {
      forall i | 0 <= i < 8
        ensures Shifted(StreamWord(key, s, j), 8 * i) % 256 == Shifted(StreamWord(key', t, j), 8 * i) % 256
      {
        StreamByteOfWord(key, s, j, i);
        StreamByteOfWord(key', t, j, i);
        assert StreamByte(key, s, 8 * j + i) == StreamByte(key', t, 8 * j + i);
      }
      Pow2Values();
      BytesAreWord(StreamWord(key, s, j), StreamWord(key', t, j), 8);
      var c: u64 := j * 0x9e3779b97f4a7c15 % WORD;
      MixInjective(Xor64(Xor64(key, s), c), Xor64(Xor64(key', t), c));
      WordsInjective(Xor64(key, s), Xor64(key', t), c);
    }
  }

  lemma WordsInjective(a: u64, b: u64, c: u64)
    requires Xor64(a, c) == Xor64(b, c)
    ensures a == b
  {
    hide Xor;
    XorInjective(a, b, c);
  }

  /** Under one key, any two sequence numbers get other bytes in every block; and so do any two
      keys under one sequence number. */
  lemma OthersGetOtherBytes(key: u64, s: u64, key': u64, t: u64, j: nat)
    requires (key == key' && s != t) || (key != key' && s == t)
    ensures exists n: nat :: 8 * j <= n < 8 * j + 8 && StreamByte(key, s, n) != StreamByte(key', t, n)
  {
    hide StreamByte, Xor;
    if Xor64(key, s) == Xor64(key', t) {
      XorCommutes(key, s);
      XorCommutes(key', t);
      if s == t { WordsInjective(key, key', s); } else { WordsInjective(s, t, key); }
    }
    StreamsDiffer(key, s, key', t, j);
  }

  /** The two directions of a session never share a key. */
  lemma DirectionsDiffer(seed: u64)
    ensures ClientToServer(seed) != ServerToClient(seed)
  {
    hide Mix64, Xor;
    if ClientToServer(seed) == ServerToClient(seed) {
      MixInjective(Xor64(seed, 0x434c49454e542d54), Xor64(seed, 0x5345525645522d54));
      XorCommutes(seed, 0x434c49454e542d54);
      XorCommutes(seed, 0x5345525645522d54);
      XorInjective(0x434c49454e542d54, 0x5345525645522d54, seed);
    }
  }
}
