/** What the codec promises: the quantised coefficients survive, short corruption of the
    stream is refused, and the decoded window is close to the encoded one. */
module Fidelity {
  import opened Bits
  import opened Results
  import Crc32
  import opened Reals
  import opened Wavelet
  import opened Reconstruction
  import opened Distortion
  import opened Isometry
  import opened Codec

  // ----- the sparse stream is lossless -----

  lemma WordRoundTrip(q: int)
    requires -0x8000 <= q < 0x8000
    ensures Signed(Word(q)) == q
  {
  }

  lemma {:induction false} PlacedPrefix(s: seq<byte>, t: seq<byte>, count: nat, i: nat)
    requires 4 * i <= |s|
    ensures PlacedTo(s + t, count, i) == PlacedTo(s, count, i)
    decreases i
  {
    if i == 0 {
    } else {
      hide Signed, FromLittleEndian;
      PlacedPrefix(s, t, count, i - 1);
      EntryPrefix(s, t, i - 1);
      if i > 1 { EntryPrefix(s, t, i - 2); }
    }
  }

  lemma EntryPrefix(s: seq<byte>, t: seq<byte>, i: nat)
    requires 4 * i + 4 <= |s|
    ensures IndexAt(s + t, i) == IndexAt(s, i) && ValueAt(s + t, i) == ValueAt(s, i)
  {
    assert (s + t)[4 * i..4 * i + 2] == s[4 * i..4 * i + 2];
    assert (s + t)[4 * i + 2..4 * i + 4] == s[4 * i + 2..4 * i + 4];
  }

  lemma LastEntry(s: seq<byte>, index: nat, q: int, i: nat)
    requires |s| == 4 * i && index < 0x1_0000 && -0x8000 <= q < 0x8000
    ensures IndexAt(s + Entry(index, q), i) == index
    ensures ValueAt(s + Entry(index, q), i) == q
  {
    hide LittleEndian, FromLittleEndian;
    var e := s + Entry(index, q);
    assert e[4 * i..4 * i + 2] == LittleEndian(index, 2);
    assert e[4 * i + 2..4 * i + 4] == LittleEndian(Word(q), 2);
    Pow2Values();
    LittleEndianInverse(index, 2);
    LittleEndianInverse(Word(q), 2);
    WordRoundTrip(q);
  }

  /** The stream s of k entries gives back the first n coefficients, its indices below n. */
  predicate Recovered(q: seq<int>, n: nat, s: seq<byte>, k: nat)
    requires n <= |q| && |s| == 4 * k
  {
    PlacedTo(s, |q|, k) == Some(q[..n] + Zeros(|q| - n)) && (k > 0 ==> IndexAt(s, k - 1) < n)
  }

  lemma NothingRecovered(q: seq<int>)
    ensures Recovered(q, 0, [], 0)
  {
    assert q[..0] + Zeros(|q|) == Zeros(|q|);
  }

  lemma ZeroSkipped(q: seq<int>, n: nat, s: seq<byte>, k: nat)
    requires 0 < n <= |q| && q[n - 1] == 0 && |s| == 4 * k && Recovered(q, n - 1, s, k)
    ensures Recovered(q, n, s, k)
  {
    assert q[..n] + Zeros(|q| - n) == q[..n - 1] + Zeros(|q| - (n - 1));
  }

  lemma EntryRecovered(q: seq<int>, n: nat, s: seq<byte>, k: nat)
    requires 0 < n <= |q| <= MAX_WINDOW && -0x8000 <= q[n - 1] < 0x8000 && |s| == 4 * k
    requires Recovered(q, n - 1, s, k)
    ensures Recovered(q, n, s + Entry(n - 1, q[n - 1]), k + 1)
  {
    hide Entry, IndexAt, ValueAt;
    var e := Entry(n - 1, q[n - 1]);
    LastEntry(s, n - 1, q[n - 1], k);
    PlacedPrefix(s, e, |q|, k);
    if k > 0 { EntryPrefix(s, e, k - 1); }
    var before := q[..n - 1] + Zeros(|q| - (n - 1));
    assert PlacedTo(s + e, |q|, k + 1) == Some(before[n - 1 := q[n - 1]]);
    assert before[n - 1 := q[n - 1]] == q[..n] + Zeros(|q| - n);
  }

  /** The entry of a non-zero coefficient stands after one entry for each such coefficient before
      it. */
  lemma {:induction false} EntryStands(q: seq<int>, n: nat, i: nat)
    requires i < n <= |q| <= MAX_WINDOW && q[i] != 0
    ensures var at := 4 * NonzeroTo(q, i);
      at + 4 <= |SparseTo(q, n)| && SparseTo(q, n)[at..at + 4] == Entry(i, q[i])
    decreases n
  {
    hide Entry, SparseTo, NonzeroTo;
    SparseStep(q, n);
    var before := SparseTo(q, n - 1);
    if i == n - 1 {
      Appended(before, Entry(i, q[i]), SparseTo(q, n));
    } else {
      EntryStands(q, n - 1, i);
      Within(SparseTo(q, n), before, 4 * NonzeroTo(q, i), 4 * NonzeroTo(q, i) + 4);
    }
  }

  lemma SparseStep(q: seq<int>, n: nat)
    requires 0 < n <= |q| <= MAX_WINDOW
    ensures q[n - 1] != 0 ==> SparseTo(q, n) == SparseTo(q, n - 1) + Entry(n - 1, q[n - 1])
    ensures |SparseTo(q, n - 1)| <= |SparseTo(q, n)| && SparseTo(q, n)[..|SparseTo(q, n - 1)|] == SparseTo(q, n - 1)
  {
    hide Entry;
    var tail := if q[n - 1] != 0 then Entry(n - 1, q[n - 1]) else [];
    assert SparseTo(q, n) == SparseTo(q, n - 1) + tail;
    Cut(SparseTo(q, n - 1), tail, SparseTo(q, n));
    hide SparseTo, NonzeroTo;
  }

  lemma Appended(a: seq<byte>, b: seq<byte>, c: seq<byte>)
    requires c == a + b
    ensures c[|a|..|a| + |b|] == b
  {
  }

  /** Byte by byte: the index, then the value, low bytes first. */
  lemma EntryBytes(i: nat, q: int)
    requires i < MAX_WINDOW
    ensures Entry(i, q) == [i % 256, i / 256, Word(q) % 256, Word(q) / 256]
  {
    TwoLow(i);
    TwoLow(Word(q));
    hide LittleEndian;
  }

  lemma TwoLow(v: u16)
    ensures LittleEndian(v, 2) == [v % 256, v / 256]
  {
    assert LittleEndian(v / 256, 1) == [v / 256 % 256] + LittleEndian(v / 256 / 256, 0);
  }

  /** Reading back the entries of a coefficient vector gives the vector. */
  lemma {:induction false} SparseRoundTrip(q: seq<int>, n: nat)
    requires Storable(q) && n <= |q| <= MAX_WINDOW
    ensures Recovered(q, n, SparseTo(q, n), NonzeroTo(q, n))
    decreases n
  {
    hide Entry, Recovered;
    if n == 0 {
      NothingRecovered(q);
    } else {
      SparseRoundTrip(q, n - 1);
      if q[n - 1] == 0 {
        ZeroSkipped(q, n, SparseTo(q, n - 1), NonzeroTo(q, n - 1));
        assert SparseTo(q, n) == SparseTo(q, n - 1);
      } else {
        EntryRecovered(q, n, SparseTo(q, n - 1), NonzeroTo(q, n - 1));
      }
    }
  }

  // ----- the frame is lossless -----

  /** Every header field is read back from the bytes it was written to. */
  lemma FrameFields(h: Header, stream: seq<byte>)
    ensures var f := Framed(h, stream);
      f[..4] == MAGIC && f[4] == VERSION && f[5] == h.levels && f[6] == h.quantBits && f[7] == h.state
      && FromLittleEndian(f[8..10]) == h.count && FromLittleEndian(f[10..12]) == h.nonzero
      && FromLittleEndian(f[12..16]) == h.windowId && FromLittleEndian(f[16..20]) == h.scaleBits
      && FromLittleEndian(f[20..24]) == h.thresholdBits
      && FromLittleEndian(f[24..28]) == Crc32.Update(0, stream) && f[28..] == stream
  {
    hide LittleEndian, FromLittleEndian, Crc32.Update;
    var f, crc := Framed(h, stream), Crc32.Update(0, stream);
    FrameSlices(h, stream);
    Pow2Values();
    LittleEndianInverse(h.count, 2);
    LittleEndianInverse(h.nonzero, 2);
    LittleEndianInverse(h.windowId, 4);
    LittleEndianInverse(h.scaleBits, 4);
    LittleEndianInverse(h.thresholdBits, 4);
    LittleEndianInverse(crc, 4);
  }

  lemma FrameSlices(h: Header, stream: seq<byte>)
    ensures var f := Framed(h, stream);
      f[..4] == MAGIC && f[4] == VERSION && f[5] == h.levels && f[6] == h.quantBits && f[7] == h.state
      && f[8..10] == LittleEndian(h.count, 2) && f[10..12] == LittleEndian(h.nonzero, 2)
      && f[12..16] == LittleEndian(h.windowId, 4) && f[16..20] == LittleEndian(h.scaleBits, 4)
      && f[20..24] == LittleEndian(h.thresholdBits, 4)
      && f[24..28] == LittleEndian(Crc32.Update(0, stream), 4) && f[28..] == stream
  {
    hide LittleEndian, Crc32.Update;
    var f := Framed(h, stream);
    var fixed := MAGIC + [VERSION, h.levels, h.quantBits, h.state];
    var toCount := fixed + LittleEndian(h.count, 2);
    var toNonzero := toCount + LittleEndian(h.nonzero, 2);
    var toWindow := toNonzero + LittleEndian(h.windowId, 4);
    var toScale := toWindow + LittleEndian(h.scaleBits, 4);
    var toCheck := Front(h) + LittleEndian(Crc32.Update(0, stream), 4);
    Cut(toCheck, stream, f);
    Cut(Front(h), LittleEndian(Crc32.Update(0, stream), 4), toCheck);
    Cut(toScale, LittleEndian(h.thresholdBits, 4), Front(h));
    Cut(toWindow, LittleEndian(h.scaleBits, 4), toScale);
    Cut(toNonzero, LittleEndian(h.windowId, 4), toWindow);
    Cut(toCount, LittleEndian(h.nonzero, 2), toNonzero);
    Cut(fixed, LittleEndian(h.count, 2), toCount);
    Within(f, toCheck, 24, 28);
    Within(f, toCheck, 0, 24);
    Within(f, Front(h), 20, 24);
    Within(f, Front(h), 0, 20);
    Within(f, toScale, 16, 20);
    Within(f, toScale, 0, 16);
    Within(f, toWindow, 12, 16);
    Within(f, toWindow, 0, 12);
    Within(f, toNonzero, 10, 12);
    Within(f, toNonzero, 0, 10);
    Within(f, toCount, 8, 10);
    Within(f, toCount, 0, 8);
    Within(f, fixed, 0, 4);
    assert fixed[..4] == MAGIC;
  }

  lemma Cut(a: seq<byte>, b: seq<byte>, f: seq<byte>)
    requires f == a + b
    ensures f[..|a|] == a && f[|a|..] == b
  {
  }

  lemma Within(f: seq<byte>, a: seq<byte>, i: nat, j: nat)
    requires i <= j <= |a| <= |f| && f[..|a|] == a
    ensures f[i..j] == a[i..j]
    ensures forall t :: i <= t < j ==> f[t] == a[t]
  {
    assert f == a + f[|a|..];
  }

  /** The scale word of an encoded window reads back as a finite positive number. */
  predicate ScaleSurvives(x: seq<real>, policy: Policy, num: Numerics, low: Filter)
    requires Encodable(x, policy)
  {
    var scale := num.fromBits(HeaderFor(x, 0, 0, policy, num, low).scaleBits);
    scale.Some? && scale.value > 0.0
  }

  function WrittenScale(x: seq<real>, policy: Policy, num: Numerics, low: Filter): real
    requires Encodable(x, policy) && ScaleSurvives(x, policy, num, low)
  {
    num.fromBits(HeaderFor(x, 0, 0, policy, num, low).scaleBits).value
  }

  /** What the receiver should get for a window. */
  function Restored(x: seq<real>, policy: Policy, num: Numerics, low: Filter): (y: seq<real>)
    requires Encodable(x, policy) && ScaleSurvives(x, policy, num, low)
    ensures |y| == |x|
  {
    AcceptedSplits(|x|, policy.levels, MAX_WINDOW);
    InverseTransform(low, Scaled(Coefficients(x, policy, num, low), WrittenScale(x, policy, num, low)),
                     policy.levels)
  }

  /** The word in which the threshold travels. */
  function ThresholdBits(x: seq<real>, policy: Policy, num: Numerics, low: Filter): u32
    requires Encodable(x, policy)
  {
    AcceptedSplits(|x|, policy.levels, MAX_WINDOW);
    num.toBits(ThresholdFor(ForwardTransform(low, x, policy.levels), policy, num))
  }

  /** Encoding succeeds on every window the configuration accepts, in a buffer that holds the
      longest representation; the length is 28 bytes and four more per nonzero coefficient. */
  lemma EncodingSucceeds(x: seq<real>, windowId: u32, state: byte, policy: Policy, capacity: nat,
                         num: Numerics, low: Filter)
    requires Encodable(x, policy) && state < STATE_COUNT && capacity >= HEADER_BYTES + 4 * MAX_WINDOW
    ensures var r, q := Encoded(x, windowId, state, policy, capacity, num, low), Coefficients(x, policy, num, low);
      r.Ok? && |r.value| == HEADER_BYTES + 4 * NonzeroTo(q, |q|)
      && HEADER_BYTES <= |r.value| <= HEADER_BYTES + 4 * |x|
  {
  }

  /** Decoding an encoded window returns its identity, its state, its parameters and the
      inverse transform of its quantised coefficients times the written scale. */
  lemma DecodeEncoded(x: seq<real>, windowId: u32, state: byte, policy: Policy, capacity: nat,
                      room: nat, num: Numerics, low: Filter)
    requires Encodable(x, policy) && policy.quantBits <= 15
    requires ScaleSurvives(x, policy, num, low) && room >= |x|
    requires Encoded(x, windowId, state, policy, capacity, num, low).Ok?
    ensures Decode(Encoded(x, windowId, state, policy, capacity, num, low).value, room, num, low)
         == Ok(Decoded(windowId, state, policy.levels, policy.quantBits,
                       NonzeroTo(Coefficients(x, policy, num, low), |x|),
                       WrittenScale(x, policy, num, low), ThresholdBits(x, policy, num, low),
                       Restored(x, policy, num, low)))
  {
    hide Coefficients, PlacedTo, SparseTo, NonzeroTo, InverseTransform, Scaled, Framed, Decode, Encoded,
      HeaderFor, Splits, TransformOk, Pow2, BandLength;
    var q := Coefficients(x, policy, num, low);
    AcceptedSplits(|x|, policy.levels, MAX_WINDOW);
    SparseRoundTrip(q, |q|);
    WholePrefix(q);
    EncodedFrame(x, windowId, state, policy, capacity, num, low);
    DecodeFramed(HeaderFor(x, windowId, state, policy, num, low), SparseTo(q, |q|), q,
                 WrittenScale(x, policy, num, low), room, num, low);
  }

  /** The threshold that travels: the gain times the noise and the universal factor of the
      window's own coefficients. */
  lemma ThresholdWord(x: seq<real>, policy: Policy, num: Numerics, low: Filter)
    requires Encodable(x, policy) && Splits(|x|, policy.levels)
    ensures var c := ForwardTransform(low, x, policy.levels);
      ThresholdBits(x, policy, num, low) == num.toBits(Times(Times(policy.gain, num.noise(c)), num.universal(|x|)))
  {
    hide ForwardTransform, TransformOk, Splits;
    var c := ForwardTransform(low, x, policy.levels);
    var threshold := Times(Times(policy.gain, num.noise(c)), num.universal(|x|));
    assert ThresholdFor(c, policy, num) == threshold;
  }

  /** The bytes every receiver reads first: the format, the policy, the window, and the threshold
      as the gain times the noise and the universal factor of the window's own coefficients. */
  lemma HeaderOfEncoded(x: seq<real>, windowId: u32, state: byte, policy: Policy, capacity: nat,
                        num: Numerics, low: Filter)
    requires Encodable(x, policy) && Encoded(x, windowId, state, policy, capacity, num, low).Ok?
    requires Splits(|x|, policy.levels)
    ensures var e := Encoded(x, windowId, state, policy, capacity, num, low).value;
      var c := ForwardTransform(low, x, policy.levels);
      e[..5] == [0x41, 0x44, 0x57, 0x31, 1]
      && e[5] as nat == policy.levels && e[6] as nat == policy.quantBits && e[7] == state
      && FromLittleEndian(e[8..10]) == |x| && FromLittleEndian(e[12..16]) == windowId
      && FromLittleEndian(e[20..24]) == num.toBits(Times(Times(policy.gain, num.noise(c)), num.universal(|x|)))
  {
    hide Encoded, Coefficients, HeaderFor, Framed, SparseTo, ForwardTransform, TransformOk, Splits, FromLittleEndian,
      NonzeroTo, Crc32.Update;
    var q, h := Coefficients(x, policy, num, low), HeaderFor(x, windowId, state, policy, num, low);
    hide ThresholdBits;
    EncodedFrame(x, windowId, state, policy, capacity, num, low);
    ThresholdWord(x, policy, num, low);
    FrameFields(h, SparseTo(q, |q|));
    var e := Framed(h, SparseTo(q, |q|));
    assert e[..5] == e[..4] + [e[4]];
  }

  lemma EncodedFrame(x: seq<real>, windowId: u32, state: byte, policy: Policy, capacity: nat,
                     num: Numerics, low: Filter)
    requires Encodable(x, policy) && Encoded(x, windowId, state, policy, capacity, num, low).Ok?
    ensures state < STATE_COUNT
    ensures var q, h := Coefficients(x, policy, num, low), HeaderFor(x, windowId, state, policy, num, low);
      Encoded(x, windowId, state, policy, capacity, num, low).value == Framed(h, SparseTo(q, |q|))
      && h.levels == policy.levels && h.quantBits == policy.quantBits && h.state == state
      && h.count == |x| && h.nonzero == NonzeroTo(q, |q|) && h.windowId == windowId
      && h.scaleBits == HeaderFor(x, 0, 0, policy, num, low).scaleBits
      && h.thresholdBits == ThresholdBits(x, policy, num, low)
  {
    hide Coefficients, Kept, ForwardTransform, SparseTo, NonzeroTo, Framed;
  }

  /** Conversely, an encoded window that decodes is one whose scale survives, in a buffer that
      has room for it. */
  lemma DecodableSurvives(x: seq<real>, windowId: u32, state: byte, policy: Policy, capacity: nat,
                          room: nat, num: Numerics, low: Filter)
    requires Encodable(x, policy) && Encoded(x, windowId, state, policy, capacity, num, low).Ok?
    requires Decode(Encoded(x, windowId, state, policy, capacity, num, low).value, room, num, low).Ok?
    ensures policy.quantBits <= 15 && ScaleSurvives(x, policy, num, low) && room >= |x|
  {
    hide Coefficients, PlacedTo, SparseTo, NonzeroTo, InverseTransform, Scaled, Framed, Encoded, FromLittleEndian,
      HeaderFor, Splits, TransformOk, Pow2, BandLength, Crc32.Update;
    var q, h := Coefficients(x, policy, num, low), HeaderFor(x, windowId, state, policy, num, low);
    EncodedFrame(x, windowId, state, policy, capacity, num, low);
    FrameFields(h, SparseTo(q, |q|));
  }

  lemma WholePrefix(q: seq<int>)
    ensures q[..|q|] + Zeros(|q| - |q|) == q
  {
  }

  /** Decoding any frame whose header passes the checks and whose entries are in order. */
  lemma DecodeFramed(h: Header, stream: seq<byte>, q: seq<int>, scale: real,
                     room: nat, num: Numerics, low: Filter)
    requires |q| == h.count <= room && TransformOk(h.count, h.levels, MAX_WINDOW) && Splits(h.count, h.levels)
    requires 2 <= h.quantBits <= 15 && h.state < STATE_COUNT && |stream| == 4 * h.nonzero
    requires num.fromBits(h.scaleBits) == Some(scale) && scale > 0.0
    requires PlacedTo(stream, h.count, h.nonzero) == Some(q)
    ensures Decode(Framed(h, stream), room, num, low)
         == Ok(Decoded(h.windowId, h.state, h.levels, h.quantBits, h.nonzero, scale, h.thresholdBits,
                       InverseTransform(low, Scaled(q, scale), h.levels)))
  {
    hide Pow2, FromLittleEndian, PlacedTo, InverseTransform, Crc32.Update, Scaled, Framed;
    FrameFields(h, stream);
  }

  /** Corruption of up to four consecutive bytes of the coefficient stream is always refused,
      with the integrity error, for every stream length. */
  lemma CorruptionRefused(h: Header, before: seq<byte>, a: seq<byte>, b: seq<byte>, after: seq<byte>,
                          room: nat, num: Numerics, low: Filter)
    requires |a| == |b| <= 4 && a != b
    requires Decode(Framed(h, before + a + after), room, num, low).Ok?
    ensures Decode(Front(h) + LittleEndian(Crc32.Update(0, before + a + after), 4) + (before + b + after),
                   room, num, low) == Err(Integrity)
  {
    hide PlacedTo, FromLittleEndian, Crc32.Update, Pow2, LittleEndian, Front, TransformOk, InverseTransform, Scaled;
    var good, bad := before + a + after, before + b + after;
    var f := Framed(h, good);
    var g := Front(h) + LittleEndian(Crc32.Update(0, good), 4) + bad;
    FrameFields(h, good);
    Crc32.FourBytesDetected(0, before, a, b, after);
    assert forall t :: 0 <= t < HEADER_BYTES ==> f[t] == g[t];
    assert f[..4] == g[..4] && f[8..10] == g[8..10] && f[10..12] == g[10..12];
    assert f[12..16] == g[12..16] && f[16..20] == g[16..20] && f[24..28] == g[24..28];
    assert g[HEADER_BYTES..] == bad;
  }

  /** The same, said of an encoded window: whatever is damaged within four consecutive bytes
      of its coefficient stream, decoding answers with the integrity error. */
  lemma DamagedWindowRefused(x: seq<real>, windowId: u32, state: byte, policy: Policy, capacity: nat,
                             room: nat, num: Numerics, low: Filter, damaged: seq<byte>, i: nat)
    requires Encodable(x, policy) && policy.quantBits <= 15
    requires ScaleSurvives(x, policy, num, low) && room >= |x|
    requires Encoded(x, windowId, state, policy, capacity, num, low).Ok?
    requires var e := Encoded(x, windowId, state, policy, capacity, num, low).value;
      |damaged| == |e| && damaged != e && i >= HEADER_BYTES
      && forall t :: 0 <= t < |e| && !(i <= t < i + 4) ==> damaged[t] == e[t]
    ensures Decode(damaged, room, num, low) == Err(Integrity)
  {
    hide Coefficients, Encoded, SparseTo, NonzeroTo, Decode, Framed, HeaderFor, Encodable, ScaleSurvives, Restored,
      WrittenScale;
    var q, h := Coefficients(x, policy, num, low), HeaderFor(x, windowId, state, policy, num, low);
    EncodedFrame(x, windowId, state, policy, capacity, num, low);
    DecodeEncoded(x, windowId, state, policy, capacity, room, num, low);
    DamagedFrameRefused(h, SparseTo(q, |q|), damaged, i, room, num, low);
  }

  lemma DamagedParts(e: seq<byte>, damaged: seq<byte>, i: nat, j: nat)
    requires |damaged| == |e| && HEADER_BYTES <= i <= j <= |e|
    requires forall t :: 0 <= t < |e| && !(i <= t < j) ==> damaged[t] == e[t]
    ensures damaged == e[..HEADER_BYTES] + (e[HEADER_BYTES..i] + damaged[i..j] + e[j..])
  {
  }

  lemma Difference(a: seq<byte>, b: seq<byte>) returns (t: nat)
    requires |a| == |b| && a != b
    ensures t < |a| && a[t] != b[t]
  {
    t :| t < |a| && a[t] != b[t];
  }

  lemma DamagedFrameRefused(h: Header, stream: seq<byte>, damaged: seq<byte>, i: nat,
                            room: nat, num: Numerics, low: Filter)
    requires Decode(Framed(h, stream), room, num, low).Ok?
    requires var e := Framed(h, stream);
      |damaged| == |e| && damaged != e && i >= HEADER_BYTES
      && forall t :: 0 <= t < |e| && !(i <= t < i + 4) ==> damaged[t] == e[t]
    ensures Decode(damaged, room, num, low) == Err(Integrity)
  {
    hide Decode, LittleEndian, Front, Crc32.Update;
    var e := Framed(h, stream);
    var j := if i + 4 < |e| then i + 4 else |e|;
    var t := Difference(damaged, e);
    var head := Front(h) + LittleEndian(Crc32.Update(0, stream), 4);
    var before, a, b, after := e[HEADER_BYTES..i], e[i..j], damaged[i..j], e[j..];
    assert e == head + stream && |head| == HEADER_BYTES;
    assert stream == e[HEADER_BYTES..] == before + a + after;
    DamagedParts(e, damaged, i, j);
    assert a[t - i] != b[t - i];
    CorruptionRefused(h, before, a, b, after, room, num, low);
  }

  // ----- what the decoder accepts -----

  /** The indices of the first n entries ascend strictly, within the window. */
  predicate Ascends(stream: seq<byte>, count: nat, n: nat)
    requires 4 * n <= |stream|
  {
    forall k :: 0 <= k < n ==> IndexAt(stream, k) < count && (k > 0 ==> IndexAt(stream, k - 1) < IndexAt(stream, k))
  }

  /** Entries are placed if and only if they ascend; then each value stands at its index, and all
      else is zero. */
  lemma {:induction false} PlacedIffAscends(stream: seq<byte>, count: nat, n: nat)
    requires 4 * n <= |stream|
    ensures PlacedTo(stream, count, n).Some? <==> Ascends(stream, count, n)
    ensures PlacedTo(stream, count, n).Some? ==>
      var q := PlacedTo(stream, count, n).value;
      (forall k :: 0 <= k < n ==> IndexAt(stream, k) < count && q[IndexAt(stream, k)] == ValueAt(stream, k))
      && forall t :: 0 <= t < count && q[t] != 0 ==> exists k :: 0 <= k < n && IndexAt(stream, k) == t
    decreases n
  {
    hide IndexAt, ValueAt;
    if n == 0 {
    } else {
      PlacedIffAscends(stream, count, n - 1);
      if PlacedTo(stream, count, n).Some? {
        AscendsBelow(stream, count, n, n - 1);
        var q := PlacedTo(stream, count, n).value;
        forall t | 0 <= t < count && q[t] != 0
          ensures exists k :: 0 <= k < n && IndexAt(stream, k) == t
        {
          if t == IndexAt(stream, n - 1) { assert 0 <= n - 1 < n; }
        }
      }
    }
  }

  lemma {:induction false} AscendsBelow(stream: seq<byte>, count: nat, n: nat, k: nat)
    requires 4 * n <= |stream| && 0 < n && k < n && Ascends(stream, count, n)
    ensures forall j :: 0 <= j < k ==> IndexAt(stream, j) < IndexAt(stream, k)
    decreases k
  {
    hide IndexAt;
    if k == 0 {
    } else {
      AscendsBelow(stream, count, n, k - 1);
    }
  }

  /** A representation, by its bytes: format and version, a window and depth the transform takes,
      a width and a state there are, a positive scale, as many entries as are announced, their
      check value, and ascending indices. */
  predicate Representation(input: seq<byte>, room: nat, num: Numerics) {
    |input| >= 28 && input[..5] == [0x41, 0x44, 0x57, 0x31, 1] &&
    var count, nonzero, stream := FromLittleEndian(input[8..10]), FromLittleEndian(input[10..12]), input[28..];
    TransformOk(count, input[5], 256) && count <= room && 2 <= input[6] <= 15 && input[7] < 5
    && ScaleReads(input[16..20], num) && |stream| == 4 * nonzero
    && FromLittleEndian(input[24..28]) == Crc32.Update(0, stream) && Ascends(stream, count, nonzero)
  }

  predicate ScaleReads(word: seq<byte>, num: Numerics)
    requires |word| == 4
  {
    WordBound(word);
    var scale := num.fromBits(FromLittleEndian(word));
    scale.Some? && scale.value > 0.0
  }

  /** The decoder accepts exactly the representations, of any origin. */
  lemma DecodesIff(input: seq<byte>, room: nat, num: Numerics, low: Filter)
    ensures Decode(input, room, num, low).Ok? <==> Representation(input, room, num)
  {
    hide FromLittleEndian, Crc32.Update, PlacedTo, Ascends, Pow2, InverseTransform, Scaled;
    if |input| >= 28 {
      FormatBytes(input);
      WordBound(input[16..20]);
      var scale := num.fromBits(FromLittleEndian(input[16..20]));
      assert ScaleReads(input[16..20], num) <==> scale.Some? && scale.value > 0.0;
      var count, nonzero, stream := FromLittleEndian(input[8..10]), FromLittleEndian(input[10..12]), input[28..];
      if |stream| == 4 * nonzero { PlacedIffAscends(stream, count, nonzero); }
    }
  }

  lemma FormatBytes(input: seq<byte>)
    requires |input| >= 28
    ensures input[..5] == [0x41, 0x44, 0x57, 0x31, 1] <==> input[..4] == MAGIC && input[4] == VERSION
  {
    assert input[..5] == input[..4] + [input[4]];
    assert input[..4] == input[..5][..4] && input[4] == input[..5][4];
    assert MAGIC + [VERSION] == [0x41, 0x44, 0x57, 0x31, 1];
  }

  // ----- what is dropped -----

  /** No entries where all coefficients are zero. */
  lemma {:induction false} NonzeroWithin(q: seq<int>, first: nat, n: nat)
    requires first <= n <= |q| && forall t :: first <= t < n ==> q[t] == 0
    ensures NonzeroTo(q, n) <= first
    decreases n
  {
    if n == first {
    } else {
      NonzeroWithin(q, first, n - 1);
    }
  }

  lemma QuantizeZero(scale: real, limit: int)
    requires scale > 0.0 && limit >= 0
    ensures Quantize(0.0, scale, limit) == 0
  {
  }

  /** A detail coefficient within the threshold is not sent, whatever the scale. */
  lemma QuietDetailDropped(x: seq<real>, policy: Policy, num: Numerics, low: Filter, t: nat)
    requires Encodable(x, policy) && |x| / Pow2(policy.levels) <= t < |x| && Splits(|x|, policy.levels)
    requires var c := ForwardTransform(low, x, policy.levels);
      var threshold := policy.gain * num.noise(c) * num.universal(|x|);
      -threshold <= c[t] <= threshold
    ensures Coefficients(x, policy, num, low)[t] == 0
  {
    hide ForwardTransform, Splits, TransformOk, Quantize, Pow2, Shrunk, ScaleFor;
    var c := ForwardTransform(low, x, policy.levels);
    ShrinkageIs(c, |x| / Pow2(policy.levels), ThresholdFor(c, policy, num), t);
    LimitRange(policy.quantBits);
    QuantizeZero(ScaleFor(Kept(x, policy, num, low), Limit(policy.quantBits)), Limit(policy.quantBits));
  }

  /** A window whose detail is all within the threshold is encoded by its approximation alone:
      28 bytes and at most four for each approximation coefficient. */
  lemma QuietWindowIsShort(x: seq<real>, windowId: u32, state: byte, policy: Policy, capacity: nat,
                           num: Numerics, low: Filter)
    requires Encodable(x, policy) && Splits(|x|, policy.levels)
    requires var c := ForwardTransform(low, x, policy.levels);
      var threshold := policy.gain * num.noise(c) * num.universal(|x|);
      forall t :: |x| / Pow2(policy.levels) <= t < |x| ==> -threshold <= c[t] <= threshold
    requires Encoded(x, windowId, state, policy, capacity, num, low).Ok?
    ensures |Encoded(x, windowId, state, policy, capacity, num, low).value|
         <= HEADER_BYTES + 4 * (|x| / Pow2(policy.levels))
  {
    hide ForwardTransform, Splits, TransformOk, Pow2, Coefficients, HeaderFor, Encoded, NonzeroTo;
    var q, first := Coefficients(x, policy, num, low), |x| / Pow2(policy.levels);
    forall t | first <= t < |x|
      ensures q[t] == 0
    {
      QuietDetailDropped(x, policy, num, low, t);
    }
    QuotientNoLarger(|x|, Pow2(policy.levels));
    NonzeroWithin(q, first, |q|);
    EncodedFrame(x, windowId, state, policy, capacity, num, low);
    hide Framed, SparseTo;
  }

  // ----- distortion -----

  lemma {:induction false} PeakBounds(c: seq<real>, n: nat, t: nat)
    requires t < n <= |c|
    ensures Abs(c[t]) <= PeakTo(c, n)
    decreases n
  {
    if t == n - 1 {
    } else {
      PeakBounds(c, n - 1, t);
    }
  }

  /** Scaled by the largest coefficient, quantisation never reaches its clamp and is off by
      at most half a step. */
  lemma QuantizeError(c: real, scale: real, limit: int)
    requires scale > 0.0 && limit >= 1 && Abs(c) <= scale * (limit as real)
    ensures Quantize(c, scale, limit) == RoundHalfAway(c / scale)
    ensures Abs(c - Times(Quantize(c, scale, limit) as real, scale)) <= scale / 2.0
  {
    hide RoundHalfAway;
    var r, m := c / scale, limit as real;
    assert r * scale == c;
    RatioBound(r, scale, m);
    RoundingRange(r, limit);
    RoundingError(r);
    ScaledError(r, RoundHalfAway(r), scale);
  }

  lemma RatioBound(r: real, scale: real, m: real)
    requires scale > 0.0 && Abs(r * scale) <= scale * m
    ensures -m <= r <= m
  {
    if r > m {
      ScalingGrows(m, r, scale);
    } else if r < -m {
      ScalingGrows(r, -m, scale);
    }
  }

  lemma ScalingGrows(a: real, b: real, s: real)
    requires s > 0.0 && a < b
    ensures a * s < b * s
  {
  }

  lemma RoundingRange(r: real, limit: int)
    requires -(limit as real) <= r <= limit as real
    ensures -limit <= RoundHalfAway(r) <= limit
  {
  }

  lemma RoundingError(r: real)
    ensures -0.5 <= r - RoundHalfAway(r) as real <= 0.5
  {
  }

  lemma ScaledError(r: real, q: int, scale: real)
    requires scale > 0.0 && -0.5 <= r - q as real <= 0.5
    ensures Abs(r * scale - Times(q as real, scale)) <= scale / 2.0
  {
    hide Times;
    HalfScaled(r - q as real, scale);
    Distributes(r, q as real, scale);
  }

  lemma Distributes(a: real, b: real, s: real)
    ensures Times(a - b, s) == a * s - Times(b, s)
  {
  }

  lemma HalfScaled(d: real, scale: real)
    requires scale > 0.0 && -0.5 <= d <= 0.5
    ensures -(scale / 2.0) <= Times(d, scale) <= scale / 2.0
  {
    TimesOrdered(scale, -0.5, d);
    TimesOrdered(scale, d, 0.5);
    assert Times(scale, d) == Times(d, scale);
  }

  /** The largest kept coefficient is within reach of the scale. */
  lemma ScaleReaches(c: seq<real>, limit: int, t: nat)
    requires limit >= 1 && t < |c|
    ensures Abs(c[t]) <= ScaleFor(c, limit) * (limit as real)
  {
    PeakBounds(c, |c|, t);
    var peak := PeakTo(c, |c|);
    if peak > 0.0 { assert peak / (limit as real) * (limit as real) == peak; }
  }

  lemma {:induction false} PeakWithin(c: seq<real>, n: nat, bound: real)
    requires n <= |c| && bound >= 0.0 && forall j :: 0 <= j < n ==> Abs(c[j]) <= bound
    ensures PeakTo(c, n) <= bound
  {
    if n == 0 {
    } else {
      PeakWithin(c, n - 1, bound);
    }
  }

  /** The whole width is used: the largest coefficient becomes the largest integer. */
  lemma LargestIsFullScale(c: seq<real>, limit: int, i: nat)
    requires limit >= 1 && i < |c| && c[i] != 0.0 && forall j :: 0 <= j < |c| ==> Abs(c[j]) <= Abs(c[i])
    ensures Quantize(c[i], ScaleFor(c, limit), limit) == if c[i] > 0.0 then limit else -limit
  {
    PeakBounds(c, |c|, i);
    PeakWithin(c, |c|, Abs(c[i]));
    FullScale(c[i], limit as real);
    var scale := Abs(c[i]) / (limit as real);
    assert ScaleFor(c, limit) == scale;
    assert c[i] / scale == if c[i] > 0.0 then limit as real else -(limit as real);
    hide ScaleFor, PeakTo;
  }

  lemma FullScale(c: real, m: real)
    requires c != 0.0 && m > 0.0
    ensures Abs(c) / m > 0.0
    ensures c / (Abs(c) / m) == if c > 0.0 then m else -m
  {
    var s := Abs(c) / m;
    assert s * m == Abs(c);
    assert s > 0.0;
    var r := c / s;
    assert r * s == c;
    SameQuotient(r, if c > 0.0 then m else -m, s);
  }

  lemma SameQuotient(a: real, b: real, s: real)
    requires s > 0.0 && a * s == b * s
    ensures a == b
  {
  }

  /** Of an encoded window, with the width as configured: the largest kept coefficient is sent as
      2^(width - 1) - 1, signed. */
  lemma LargestKeptIsFullScale(x: seq<real>, policy: Policy, num: Numerics, low: Filter, i: nat)
    requires Encodable(x, policy) && i < |x|
    requires var t := Kept(x, policy, num, low);
      t[i] != 0.0 && forall j :: 0 <= j < |t| ==> Abs(t[j]) <= Abs(t[i])
    ensures var largest := Pow2(policy.quantBits - 1) - 1;
      Coefficients(x, policy, num, low)[i] == if Kept(x, policy, num, low)[i] > 0.0 then largest else -largest
  {
    hide Kept, Pow2, TransformOk, Quantize, ScaleFor;
    LimitRange(policy.quantBits);
    LargestIsFullScale(Kept(x, policy, num, low), Limit(policy.quantBits), i);
  }

  /** Rounding is to the nearest integer, and of two nearest to the one further from zero. */
  lemma RoundsHalfAway(x: real)
    ensures var q := RoundHalfAway(x);
      Abs(x - q as real) <= 0.5 && (Abs(x - q as real) == 0.5 ==> Abs(q as real) > Abs(x))
      && RoundHalfAway(-x) == -q
  {
  }

  /** Per-coefficient budget: the threshold on detail coefficients, half a quantisation step,
      and what rounding the written scale costs. */
  function Budget(n: nat, firstDetail: nat, threshold: real, scale: real, drift: real, limit: int): (b: seq<real>)
    ensures |b| == n
  {
    seq(n, t requires 0 <= t < n =>
      (if t < firstDetail then 0.0 else threshold) + scale / 2.0 + drift * (limit as real))
  }

  lemma CoefficientError(c: real, t: real, shift: real, scale: real, written: real, limit: int)
    requires scale > 0.0 && limit >= 1 && Abs(c - t) <= shift && Abs(t) <= scale * (limit as real)
    ensures Abs(c - Times(Quantize(t, scale, limit) as real, written))
         <= shift + scale / 2.0 + Abs(written - scale) * (limit as real)
  {
    hide Quantize, Times;
    QuantizeError(t, scale, limit);
    DriftError(Quantize(t, scale, limit), scale, written, limit);
  }

  lemma DriftError(q: int, scale: real, written: real, limit: int)
    requires -limit <= q <= limit
    ensures Abs(Times(q as real, scale) - Times(q as real, written)) <= Abs(written - scale) * (limit as real)
  {
    var d := written - scale;
    assert q as real * scale - q as real * written == -(q as real * d);
    assert Abs(q as real * d) == Abs(q as real) * Abs(d);
    assert Abs(q as real) * Abs(d) <= limit as real * Abs(d);
  }

  /** The budget of a window's coefficients, with the scale its decoder reads. */
  function BudgetFor(x: seq<real>, policy: Policy, num: Numerics, low: Filter): (b: seq<real>)
    requires Encodable(x, policy) && ScaleSurvives(x, policy, num, low)
    ensures |b| == |x|
  {
    AcceptedSplits(|x|, policy.levels, MAX_WINDOW);
    LimitRange(policy.quantBits);
    var scale := ScaleFor(Kept(x, policy, num, low), Limit(policy.quantBits));
    Budget(|x|, |x| / Pow2(policy.levels), ThresholdFor(ForwardTransform(low, x, policy.levels), policy, num),
           scale, Abs(WrittenScale(x, policy, num, low) - scale), Limit(policy.quantBits))
  }

  /** For every filter, the squared error between a window and its decoded form is at most the
      sum of the squared budgets of its coefficients, up to the drift of the filter. With a
      scale that is written exactly the budget is the threshold plus half a step. */
  lemma DistortionBound(x: seq<real>, policy: Policy, num: Numerics, low: Filter)
    requires Encodable(x, policy) && ScaleSurvives(x, policy, num, low)
    requires NonNegative(num) && policy.gain >= 0.0
    ensures var y, b := Minus(x, Restored(x, policy, num, low)), BudgetFor(x, policy, num, low);
      WithinDrift(Dot(y, y), Dot(b, b), Dot(x, x), Drift(Defect(low), policy.levels))
  {
    hide ForwardTransform, InverseTransform, Dot, Scaled, Quantized, Shrunk, Minus, Budget, Drift, Defect, WithinDrift,
      WrittenScale, ScaleFor, Pow2, TransformOk, Splits, ThresholdFor, ScaleSurvives, Limit;
    AcceptedSplits(|x|, policy.levels, MAX_WINDOW);
    LimitRange(policy.quantBits);
    var c, limit := ForwardTransform(low, x, policy.levels), Limit(policy.quantBits);
    ThresholdNonNegative(c, policy, num);
    var q, written := Coefficients(x, policy, num, low), WrittenScale(x, policy, num, low);
    KeptError(c, |x| / Pow2(policy.levels), ThresholdFor(c, policy, num), limit, written);
    CoefficientErrorBoundsWindowError(low, x, Scaled(q, written), policy.levels);
    var y, e := Minus(x, Restored(x, policy, num, low)), Minus(c, Scaled(q, written));
    var b := BudgetFor(x, policy, num, low);
    MoreBudget(Dot(y, y), Dot(e, e), Dot(b, b), Dot(x, x), Drift(Defect(low), policy.levels));
  }

  /** With an orthonormal filter the squared error is within the squared budgets. */
  lemma OrthonormalDistortion(x: seq<real>, policy: Policy, num: Numerics, low: Filter)
    requires Orthonormal(low) && Encodable(x, policy) && ScaleSurvives(x, policy, num, low)
    requires NonNegative(num) && policy.gain >= 0.0
    ensures var y, b := Minus(x, Restored(x, policy, num, low)), BudgetFor(x, policy, num, low);
      Dot(y, y) <= Dot(b, b)
  {
    hide Orthonormal, Dot, Minus, Restored, BudgetFor, Drift, Defect, WithinDrift, Encodable, ScaleSurvives;
    DistortionBound(x, policy, num, low);
    var y, b := Minus(x, Restored(x, policy, num, low)), BudgetFor(x, policy, num, low);
    ExactWithin(low, Dot(y, y), Dot(b, b), Dot(x, x), policy.levels);
  }

  /** With the published decimals it is within 1.000001 times those, and 5e-15 of the energy of
      the window. */
  lemma ShippedDistortion(x: seq<real>, policy: Policy, num: Numerics, low: Filter)
    requires low == DB4_LOW && Encodable(x, policy) && ScaleSurvives(x, policy, num, low)
    requires NonNegative(num) && policy.gain >= 0.0
    ensures var y, b := Minus(x, Restored(x, policy, num, low)), BudgetFor(x, policy, num, low);
      Dot(y, y) <= 1.000001 * Dot(b, b) + 0.000000000000005 * Dot(x, x)
  {
    hide Dot, Minus, Restored, BudgetFor, Drift, Defect, WithinDrift, ScaleSurvives, TransformOk;
    DistortionBound(x, policy, num, low);
    var y, b := Minus(x, Restored(x, policy, num, low)), BudgetFor(x, policy, num, low);
    SelfDotNonNegative(y);
    SelfDotNonNegative(b);
    SelfDotNonNegative(x);
    ShippedWithin(low, Dot(y, y), Dot(b, b), Dot(x, x), |x|, policy.levels);
  }

  /** Thresholding, quantising and rescaling any coefficient vector stays within budget. */
  lemma KeptError(c: seq<real>, first: nat, threshold: real, limit: int, written: real)
    requires threshold >= 0.0 && limit >= 1
    ensures var t := Shrunk(c, first, threshold);
      var scale := ScaleFor(t, limit);
      var e := Minus(c, Scaled(Quantized(t, scale, limit), written));
      var b := Budget(|c|, first, threshold, scale, Abs(written - scale), limit);
      Dot(e, e) <= Dot(b, b)
  {
    hide Shrunk, Dot, ScaleFor, Quantize, Times;
    var t := Shrunk(c, first, threshold);
    var scale := ScaleFor(t, limit);
    var e := Minus(c, Scaled(Quantized(t, scale, limit), written));
    var b := Budget(|c|, first, threshold, scale, Abs(written - scale), limit);
    forall i | 0 <= i < |c|
      ensures Abs(e[i]) <= b[i]
    {
      ShrinkageBound(c, first, threshold, i);
      ScaleReaches(t, limit, i);
      CoefficientError(c[i], t[i], if i < first then 0.0 else threshold, scale, written, limit);
    }
    SquaresDominatedAll(e, b);
  }

  lemma SquaresDominatedAll(e: seq<real>, b: seq<real>)
    requires |e| == |b| && forall t :: 0 <= t < |e| ==> Abs(e[t]) <= b[t]
    ensures Dot(e, e) <= Dot(b, b)
  {
    SquaresDominated(e, b, |e|);
  }

  lemma ThresholdNonNegative(c: seq<real>, policy: Policy, num: Numerics)
    requires NonNegative(num) && policy.gain >= 0.0
    ensures ThresholdFor(c, policy, num) >= 0.0
  {
    var a := policy.gain * num.noise(c);
    assert a >= 0.0;
    assert a * num.universal(|c|) >= 0.0;
  }
}
