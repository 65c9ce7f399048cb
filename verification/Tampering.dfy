/** What the test provider notices: one changed byte anywhere in a record or its associated data.
    This is detection of accidents; nothing here speaks of deliberate changes. */
module Tampering {
  import opened Bits
  import opened Results
  import opened Records
  import opened Providers

  const FNV_PRIME: nat := 16777619
  /** The inverse of the prime modulo 2^32. */
  const FNV_INVERSE: nat := 899433627
  const WORD32: nat := 0x1_0000_0000

  // ----- one step of the hash is a bijection -----

  /** A factor with an inverse modulo n is undone by it. */
  lemma InverseUndoes(a: nat, p: nat, q: nat, k: nat, n: nat)
    requires a < n && p * q == 1 + k * n
    ensures (a * p % n) * q % n == a
  {
    var x := a * p;
    var d := x / n;
    assert x == n * d + x % n;
    RegroupInverse(a, p, q, k, n);
    assert (x % n) * q == x * q - n * (d * q) by { assert n * d * q == n * (d * q); }
    assert (x % n) * q == n * (a * k - d * q) + a by { ProductDifference(n, a * k, d * q); }
    UniqueRemainder((x % n) * q, n, a * k - d * q, a);
  }

  lemma RegroupInverse(a: nat, p: nat, q: nat, k: nat, n: nat)
    requires p * q == 1 + k * n
    ensures a * p * q == a + n * (a * k)
  {
    assert a * p * q == a * (p * q) == a + a * (k * n);
    assert a * (k * n) == n * (a * k);
  }

  function FnvStep(hash: u32, b: byte): u32 {
    Xor32(hash, b) * FNV_PRIME % WORD32
  }

  lemma FnvStepInjective(h: u32, k: u32, a: byte, b: byte)
    requires FnvStep(h, a) == FnvStep(k, b)
    ensures Xor32(h, a) == Xor32(k, b)
  {
    hide Xor32;
    InverseUndoes(Xor32(h, a), FNV_PRIME, FNV_INVERSE, 3513497, WORD32);
    InverseUndoes(Xor32(k, b), FNV_PRIME, FNV_INVERSE, 3513497, WORD32);
  }

  /** Different hashes stay different over the same data. */
  lemma {:induction false} FnvKeepsApart(h: u32, k: u32, data: seq<byte>)
    requires h != k
    ensures Fnv(h, data) != Fnv(k, data)
    decreases |data|
  {
    if data == [] {
    } else {
      if FnvStep(h, data[0]) == FnvStep(k, data[0]) {
        FnvStepInjective(h, k, data[0], data[0]);
        XorInjective(h, k, data[0]);
        assert false;
      }
      FnvKeepsApart(FnvStep(h, data[0]), FnvStep(k, data[0]), data[1..]);
    }
  }

  /** Two byte strings that differ in one place. */
  predicate OneByteApart(a: seq<byte>, b: seq<byte>, i: nat) {
    |a| == |b| && i < |a| && a[i] != b[i] && forall j :: 0 <= j < |a| && j != i ==> a[j] == b[j]
  }

  lemma {:induction false} FnvNotices(h: u32, a: seq<byte>, b: seq<byte>, i: nat)
    requires OneByteApart(a, b, i)
    ensures Fnv(h, a) != Fnv(h, b)
    decreases i
  {
    if i == 0 {
      if FnvStep(h, a[0]) == FnvStep(h, b[0]) {
        FnvStepInjective(h, h, a[0], b[0]);
        XorCommutes(h, a[0]);
        XorCommutes(h, b[0]);
        XorInjective(a[0], b[0], h);
        assert false;
      }
      assert a[1..] == b[1..];
      FnvKeepsApart(FnvStep(h, a[0]), FnvStep(h, b[0]), a[1..]);
    } else {
      FnvNotices(FnvStep(h, a[0]), a[1..], b[1..], i - 1);
    }
  }

  // ----- the tag -----

  /** What a tag is computed over. */
  datatype Tagged = Tagged(header: seq<byte>, aad: seq<byte>, body: seq<byte>)

  /** One byte of header, associated data or ciphertext differs. */
  predicate Touched(a: Tagged, b: Tagged, i: nat) {
    (OneByteApart(a.header, b.header, i) && a.aad == b.aad && a.body == b.body)
    || (a.header == b.header && OneByteApart(a.aad, b.aad, i) && a.body == b.body)
    || (a.header == b.header && a.aad == b.aad && OneByteApart(a.body, b.body, i))
  }

  function LaneHash(key: u64, lane: nat, t: Tagged): u32 {
    Fnv(Fnv(Fnv(LaneSeed(key, lane), t.header), t.aad), t.body)
  }

  lemma LaneNotices(key: u64, lane: nat, a: Tagged, b: Tagged, i: nat)
    requires Touched(a, b, i)
    ensures LaneHash(key, lane, a) != LaneHash(key, lane, b)
  {
    hide Fnv, LaneSeed;
    var seed := LaneSeed(key, lane);
    if a.header != b.header {
      FnvNotices(seed, a.header, b.header, i);
      FnvKeepsApart(Fnv(seed, a.header), Fnv(seed, b.header), a.aad);
      FnvKeepsApart(Fnv(Fnv(seed, a.header), a.aad), Fnv(Fnv(seed, b.header), b.aad), a.body);
    } else if a.aad != b.aad {
      FnvNotices(Fnv(seed, a.header), a.aad, b.aad, i);
      FnvKeepsApart(Fnv(Fnv(seed, a.header), a.aad), Fnv(Fnv(seed, b.header), b.aad), a.body);
    } else {
      FnvNotices(Fnv(Fnv(seed, a.header), a.aad), a.body, b.body, i);
    }
  }

  /** One changed byte changes the tag, in its last lane as in every other. */
  lemma TagNotices(key: u64, a: Tagged, b: Tagged, i: nat)
    requires Touched(a, b, i)
    ensures Tag(key, a.header, a.aad, a.body, 4) != Tag(key, b.header, b.aad, b.body, 4)
  {
    hide LaneHash, LaneSeed, Fnv, Touched, BigEndian;
    LaneNotices(key, 3, a, b, i);
    LastLane(key, a);
    LastLane(key, b);
    if Tag(key, a.header, a.aad, a.body, 4)[12..] == Tag(key, b.header, b.aad, b.body, 4)[12..] {
      Pow2Values();
      BigEndianInverse(LaneHash(key, 3, a), 4);
      BigEndianInverse(LaneHash(key, 3, b), 4);
    }
  }

  lemma LastLane(key: u64, t: Tagged)
    ensures Tag(key, t.header, t.aad, t.body, 4)[12..] == BigEndian(LaneHash(key, 3, t), 4)
    ensures Tag(key, t.header, t.aad, t.body, 4)[8..12] == BigEndian(LaneHash(key, 2, t), 4)
  {
    hide LaneSeed, Fnv, BigEndian;
    var two, three := Tag(key, t.header, t.aad, t.body, 2), Tag(key, t.header, t.aad, t.body, 3);
    var lane2, lane3 := LaneTag(key, 2, t.header, t.aad, t.body), LaneTag(key, 3, t.header, t.aad, t.body);
    assert three == two + lane2;
    assert Tag(key, t.header, t.aad, t.body, 4) == three + lane3;
    LastOfThree(two, lane2, lane3);
  }

  lemma LastOfThree(a: seq<byte>, b: seq<byte>, c: seq<byte>)
    ensures (a + b + c)[|a|..|a| + |b|] == b && (a + b + c)[|a| + |b|..] == c
  {
  }

  /** Lane 2 is seeded with the low half of the key and lane 3 with the high half. */
  lemma SeedsDiffer(key: u64, key': u64, lane: nat)
    requires lane == 2 || lane == 3
    requires ShiftRight(key, lane % 2 * 32) % WORD32 != ShiftRight(key', lane % 2 * 32) % WORD32
    ensures LaneSeed(key, lane) != LaneSeed(key', lane)
  {
    hide Xor, ShiftRight;
    var a: u32, b: u32 := ShiftRight(key, lane % 2 * 32) % WORD32, ShiftRight(key', lane % 2 * 32) % WORD32;
    var c: u32 := lane * 0x9e3779b9 % WORD32;
    if LaneSeed(key, lane) == LaneSeed(key', lane) {
      XorInjective(Xor(2166136261, a), Xor(2166136261, b), c);
      XorCommutes(2166136261, a);
      XorCommutes(2166136261, b);
      XorInjective(a, b, 2166136261);
    }
  }

  lemma HalvesDiffer(key: u64, key': u64)
    requires key != key'
    ensures ShiftRight(key, 0) % WORD32 != ShiftRight(key', 0) % WORD32
            || ShiftRight(key, 32) % WORD32 != ShiftRight(key', 32) % WORD32
  {
    Halves(key);
    Halves(key');
    hide ShiftRight;
  }

  lemma Halves(key: u64)
    ensures key == WORD32 * (ShiftRight(key, 32) % WORD32) + ShiftRight(key, 0) % WORD32
  {
    Pow2Values();
    assert Pow2(0) == 1;
    hide Pow2;
    var high, low := QuotientIs(key, WORD32);
    assert ShiftRight(key, 0) == key && ShiftRight(key, 32) == high;
    UniqueRemainder(key, WORD32, high, low);
    UniqueRemainder(high, WORD32, 0, high);
  }

  lemma LaneKeyed(key: u64, key': u64, lane: nat, t: Tagged)
    requires LaneSeed(key, lane) != LaneSeed(key', lane)
    ensures LaneHash(key, lane, t) != LaneHash(key', lane, t)
  {
    hide Fnv, LaneSeed;
    var a, b := LaneSeed(key, lane), LaneSeed(key', lane);
    FnvKeepsApart(a, b, t.header);
    FnvKeepsApart(Fnv(a, t.header), Fnv(b, t.header), t.aad);
    FnvKeepsApart(Fnv(Fnv(a, t.header), t.aad), Fnv(Fnv(b, t.header), t.aad), t.body);
  }

  /** Another key gives another tag, over anything. */
  lemma KeysGetOtherTags(key: u64, key': u64, t: Tagged)
    requires key != key'
    ensures Tag(key, t.header, t.aad, t.body, 4) != Tag(key', t.header, t.aad, t.body, 4)
  {
    hide LaneHash, LaneSeed, Fnv, BigEndian, ShiftRight, Tag;
    HalvesDiffer(key, key');
    var lane := if ShiftRight(key, 0) % WORD32 != ShiftRight(key', 0) % WORD32 then 2 else 3;
    SeedsDiffer(key, key', lane);
    LaneKeyed(key, key', lane, t);
    LastLane(key, t);
    LastLane(key', t);
    Pow2Values();
    BigEndianInverse(LaneHash(key, lane, t), 4);
    BigEndianInverse(LaneHash(key', lane, t), 4);
  }

  // ----- the record -----

  /** What opening recomputes the tag over. */
  function TaggedOf(record: seq<byte>, aad: seq<byte>): Tagged
    requires |record| >= OVERHEAD
  {
    Tagged(Records.Header(SequenceOf(record)), aad, record[9..|record| - TAG_BYTES])
  }

  lemma UnsealedIff(key: u64, record: seq<byte>, aad: seq<byte>)
    requires |record| >= OVERHEAD
    ensures var t := TaggedOf(record, aad);
      TestUnsealed(key, SequenceOf(record), aad, record[9..]).Some?
      <==> Tag(key, t.header, t.aad, t.body, 4) == record[|record| - TAG_BYTES..]
  {
    hide Tag, Streamed, SequenceOf, Records.Header;
    var sealed := record[9..];
    var n := |sealed| - TAG_BYTES;
    assert sealed[..n] == record[9..|record| - TAG_BYTES] && sealed[n..] == record[|record| - TAG_BYTES..];
  }

  /** The header that opening recomputes is the one that arrived. */
  lemma HeaderArrived(record: seq<byte>)
    requires |record| >= OVERHEAD && record[0] == RECORD_VERSION
    ensures Records.Header(SequenceOf(record)) == record[..9]
  {
    BigEndianOfValue(record[1..9]);
    assert record[..9] == [record[0]] + record[1..9];
    hide BigEndian, FromBigEndian;
  }

  /** Of a record that opens, any one byte changed after the version, or any one byte of the
      associated data, makes the tag wrong: unless the changed sequence number is refused before
      it as a replay, opening answers with the integrity error. */
  lemma OneByteNoticed(key: u64, replay: ReplayState, record: seq<byte>, aad: seq<byte>, record': seq<byte>,
                       aad': seq<byte>, i: nat, capacity: nat)
    requires |record| >= OVERHEAD && record[0] == RECORD_VERSION && |record| - OVERHEAD <= capacity
    requires TestUnsealed(key, SequenceOf(record), aad, record[9..]).Some?
    requires (OneByteApart(record, record', i) && i > 0 && aad' == aad)
             || (record' == record && OneByteApart(aad, aad', i))
    ensures |record'| >= OVERHEAD
    ensures Open(TestCipher(key), replay, record', aad', capacity)
         == (replay, Err(if replay.initialized && SequenceOf(record') <= replay.highest then Replay else Integrity))
  {
    hide TestUnsealed, SequenceOf, Tag, Records.Header;
    UnsealedIff(key, record, aad);
    UnsealedIff(key, record', aad');
    HeaderArrived(record);
    HeaderArrived(record');
    var n := |record| - TAG_BYTES;
    var t, t' := TaggedOf(record, aad), TaggedOf(record', aad');
    if record' == record {
      TagNotices(key, t, t', i);
    } else if i < 9 {
      assert OneByteApart(record[..9], record'[..9], i) && record[9..n] == record'[9..n] && record[n..] == record'[n..];
      TagNotices(key, t, t', i);
    } else if i < n {
      assert OneByteApart(record[9..n], record'[9..n], i - 9) && record[..9] == record'[..9];
      assert record[n..] == record'[n..];
      TagNotices(key, t, t', i - 9);
    } else {
      assert record[..9] == record'[..9] && record[9..n] == record'[9..n];
      assert record[n..][i - n] != record'[n..][i - n];
    }
  }

  /** So a sealed record with one byte changed, or read with one byte of its associated data
      changed, is never opened. */
  lemma SealedRecordGuarded(key: u64, replay: ReplayState, sequence: u64, aad: seq<byte>, p: seq<byte>,
                            record': seq<byte>, aad': seq<byte>, i: nat, capacity: nat)
    requires |p| <= capacity
    requires var record := Record(TestCipher(key), sequence, aad, p);
      (OneByteApart(record, record', i) && aad' == aad) || (record' == record && OneByteApart(aad, aad', i))
    ensures var (after, r) := Open(TestCipher(key), replay, record', aad', capacity);
      after == replay && r.Err? && r.error in {Format, Replay, Integrity}
      && (r.error == Format <==> record'[0] != RECORD_VERSION)
      && (r.error == Replay ==> |record'| >= OVERHEAD && replay.initialized && SequenceOf(record') <= replay.highest)
  {
    hide TestUnsealed, SequenceOf, TestSealed, Records.Header;
    TestCipherLawful(key);
    var c := TestCipher(key);
    var record := Record(c, sequence, aad, p);
    SequenceOfRecord(c, sequence, aad, p);
    assert record[9..] == c.seal(sequence, aad, p);
    TestRoundTrip(key, sequence, aad, p);
    if record'[0] == RECORD_VERSION {
      OneByteNoticed(key, replay, record, aad, record', aad', i, capacity);
    }
  }
}
