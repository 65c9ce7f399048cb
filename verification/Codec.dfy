/** The window codec of src/codec.c: transform, threshold, quantise, sparse stream and
    check value, and the decoder that undoes them. */
module Codec {
  import opened Bits
  import opened Results
  import Crc32
  import opened Reals
  import opened Wavelet

  const HEADER_BYTES: nat := 28
  const VERSION: byte := 1
  const MAGIC: seq<byte> := [0x41, 0x44, 0x57, 0x31]
  const STATE_COUNT: nat := 5

  /** What the model takes from the platform: the conversion between doubles and the 32-bit
      words of the header (None when the word is not finite), the noise estimate of a
      coefficient vector, and the factor sqrt(2 log n). */
  datatype Numerics = Numerics(toBits: real -> u32, fromBits: u32 -> Option<real>,
                               noise: seq<real> -> real, universal: nat -> real)

  ghost predicate NonNegative(num: Numerics) {
    (forall c :: num.noise(c) >= 0.0) && (forall n :: num.universal(n) >= 0.0)
  }

  /** The part of the configuration that the encoder reads, for one state. */
  datatype Policy = Policy(windowSize: nat, levels: nat, gain: real, quantBits: nat)

  datatype Decoded = Decoded(windowId: u32, state: byte, levels: nat, quantBits: nat,
                             nonzero: nat, scale: real, thresholdBits: u32, samples: seq<real>)

  // ----- quantisation -----

  /** Nearest integer, halves away from zero. */
  function RoundHalfAway(x: real): int {
    if x >= 0.0 then (x + 0.5).Floor else -((-x + 0.5).Floor)
  }

  function Quantize(c: real, scale: real, limit: int): (q: int)
    requires scale > 0.0 && limit >= 0
    ensures -limit <= q <= limit
  {
    var q := RoundHalfAway(c / scale);
    if q > limit then limit else if q < -limit then -limit else q
  }

  function Quantized(c: seq<real>, scale: real, limit: int): (q: seq<int>)
    requires scale > 0.0 && limit >= 0
    ensures |q| == |c|
    ensures forall t :: 0 <= t < |q| ==> -limit <= q[t] <= limit
  {
    seq(|c|, t requires 0 <= t < |c| => Quantize(c[t], scale, limit))
  }

  function PeakTo(c: seq<real>, n: nat): (p: real)
    requires n <= |c|
    ensures p >= 0.0
  {
    if n == 0 then 0.0
    else if Abs(c[n - 1]) > PeakTo(c, n - 1) then Abs(c[n - 1]) else PeakTo(c, n - 1)
  }

  function Limit(quantBits: nat): nat
    requires quantBits >= 1
  {
    Pow2(quantBits - 1) - 1
  }

  lemma {:induction false} Pow2Monotonic(a: nat, b: nat)
    requires a <= b
    ensures Pow2(a) <= Pow2(b)
    decreases b - a
  {
    if a == b {
    } else {
      Pow2Monotonic(a, b - 1);
    }
  }

  lemma LimitRange(quantBits: nat)
    requires quantBits >= 2
    ensures Limit(quantBits) >= 1
    ensures quantBits <= 15 ==> Limit(quantBits) <= 16383
  {
    Pow2Monotonic(1, quantBits - 1);
    if quantBits <= 15 { Pow2Monotonic(quantBits - 1, 14); }
    assert Pow2(14) == 16384;
  }

  function ScaleFor(c: seq<real>, limit: nat): (s: real)
    requires limit >= 1
    ensures s > 0.0
  {
    var peak := PeakTo(c, |c|);
    if peak > 0.0 then peak / (limit as real) else 1.0
  }

  // ----- the sparse stream -----

  /** The word an integer is truncated to; it holds every int16 value. */
  function Word(q: int): u16 {
    q % 0x1_0000
  }

  function Signed(w: u16): int {
    if w >= 0x8000 then w - 0x1_0000 else w
  }

  predicate Storable(q: seq<int>) {
    forall t :: 0 <= t < |q| ==> -0x8000 <= q[t] < 0x8000
  }

  function Entry(index: nat, q: int): (s: seq<byte>)
    ensures |s| == 4
  {
    LittleEndian(index, 2) + LittleEndian(Word(q), 2)
  }

  function NonzeroTo(q: seq<int>, n: nat): (k: nat)
    requires n <= |q|
    ensures k <= n
  {
    if n == 0 then 0 else NonzeroTo(q, n - 1) + if q[n - 1] != 0 then 1 else 0
  }

  function SparseTo(q: seq<int>, n: nat): (s: seq<byte>)
    requires n <= |q|
    ensures |s| == 4 * NonzeroTo(q, n)
  {
    if n == 0 then [] else SparseTo(q, n - 1) + if q[n - 1] != 0 then Entry(n - 1, q[n - 1]) else []
  }

  function IndexAt(stream: seq<byte>, i: nat): nat
    requires 4 * i + 4 <= |stream|
  {
    FromLittleEndian(stream[4 * i..4 * i + 2])
  }

  lemma FromLittleEndian2(s: seq<byte>)
    requires |s| == 2
    ensures FromLittleEndian(s) == s[0] as int + 256 * (s[1] as int) < 0x1_0000
  {
    assert FromLittleEndian(s[1..]) == s[1] + 256 * FromLittleEndian(s[1..][1..]);
  }

  function ValueAt(stream: seq<byte>, i: nat): int
    requires 4 * i + 4 <= |stream|
  {
    FromLittleEndian2(stream[4 * i + 2..4 * i + 4]);
    Signed(FromLittleEndian(stream[4 * i + 2..4 * i + 4]))
  }

  function Zeros(n: nat): (z: seq<int>)
    ensures |z| == n && forall t :: 0 <= t < n ==> z[t] == 0
  {
    seq(n, _ => 0)
  }

  /** The coefficients after the first i entries; None once an index is out of range or not
      above the one before it. */
  function PlacedTo(stream: seq<byte>, count: nat, i: nat): (r: Option<seq<int>>)
    requires 4 * i <= |stream|
    ensures r.Some? ==> |r.value| == count
  {
    if i == 0 then Some(Zeros(count))
    else
      var before := PlacedTo(stream, count, i - 1);
      var index := IndexAt(stream, i - 1);
      if before.None? || index >= count || (i > 1 && index <= IndexAt(stream, i - 2)) then None
      else Some(before.value[index := ValueAt(stream, i - 1)])
  }

  // ----- header -----

  datatype Header = Header(levels: byte, quantBits: byte, state: byte, count: u16, nonzero: u16,
                           windowId: u32, scaleBits: u32, thresholdBits: u32)

  function Front(h: Header): (s: seq<byte>)
    ensures |s| == 24
  {
    MAGIC + [VERSION, h.levels, h.quantBits, h.state] + LittleEndian(h.count, 2)
    + LittleEndian(h.nonzero, 2) + LittleEndian(h.windowId, 4)
    + LittleEndian(h.scaleBits, 4) + LittleEndian(h.thresholdBits, 4)
  }

  function Framed(h: Header, stream: seq<byte>): (s: seq<byte>)
    ensures |s| == HEADER_BYTES + |stream|
  {
    Front(h) + LittleEndian(Crc32.Update(0, stream), 4) + stream
  }

  // ----- what encoding and decoding compute -----

  function ThresholdFor(c: seq<real>, policy: Policy, num: Numerics): real {
    policy.gain * num.noise(c) * num.universal(|c|)
  }

  /** The widths for which the shift and the division of the encoder are defined. Its callers
      pass validated ones, at most 15; wider ones it encodes and no decoder takes back. */
  predicate WidthOk(quantBits: nat) {
    2 <= quantBits <= 31
  }

  predicate Encodable(x: seq<real>, policy: Policy) {
    |x| == policy.windowSize && TransformOk(|x|, policy.levels, MAX_WINDOW)
    && WidthOk(policy.quantBits)
  }

  /** The thresholded coefficients of a window. */
  function Kept(x: seq<real>, policy: Policy, num: Numerics, low: Filter): (t: seq<real>)
    requires Encodable(x, policy)
    ensures |t| == |x|
  {
    AcceptedSplits(|x|, policy.levels, MAX_WINDOW);
    var c := ForwardTransform(low, x, policy.levels);
    Shrunk(c, |x| / Pow2(policy.levels), ThresholdFor(c, policy, num))
  }

  function Coefficients(x: seq<real>, policy: Policy, num: Numerics, low: Filter): (q: seq<int>)
    requires Encodable(x, policy)
    ensures |q| == |x| && (policy.quantBits <= 15 ==> Storable(q))
  {
    LimitRange(policy.quantBits);
    var t, limit := Kept(x, policy, num, low), Limit(policy.quantBits);
    Quantized(t, ScaleFor(t, limit), limit)
  }

  function HeaderFor(x: seq<real>, windowId: u32, state: byte, policy: Policy,
                     num: Numerics, low: Filter): Header
    requires Encodable(x, policy)
  {
    AcceptedSplits(|x|, policy.levels, MAX_WINDOW);
    LimitRange(policy.quantBits);
    var t, q := Kept(x, policy, num, low), Coefficients(x, policy, num, low);
    var c := ForwardTransform(low, x, policy.levels);
    Header(policy.levels, policy.quantBits, state, |x|, NonzeroTo(q, |q|), windowId,
           num.toBits(ScaleFor(t, Limit(policy.quantBits))), num.toBits(ThresholdFor(c, policy, num)))
  }

  function Encoded(x: seq<real>, windowId: u32, state: byte, policy: Policy, capacity: nat,
                   num: Numerics, low: Filter): (r: Result<seq<byte>>)
    requires WidthOk(policy.quantBits)
    ensures r.Ok? ==> HEADER_BYTES <= |r.value| <= capacity
  {
    if state >= STATE_COUNT then Err(Argument)
    else if |x| != policy.windowSize || |x| > MAX_WINDOW then Err(Range)
    else if !TransformOk(|x|, policy.levels, MAX_WINDOW) then Err(Range)
    else
      var q := Coefficients(x, policy, num, low);
      if HEADER_BYTES + 4 * NonzeroTo(q, |q|) > capacity then Err(Capacity)
      else Ok(Framed(HeaderFor(x, windowId, state, policy, num, low), SparseTo(q, |q|)))
  }

  function Scaled(q: seq<int>, scale: real): (c: seq<real>)
    ensures |c| == |q|
  {
    seq(|q|, t requires 0 <= t < |q| => Times(q[t] as real, scale))
  }

  function Decode(input: seq<byte>, capacity: nat, num: Numerics, low: Filter): (r: Result<Decoded>)
  {
    if |input| < HEADER_BYTES || input[..4] != MAGIC || input[4] != VERSION then Err(Format)
    else
      var levels, quantBits, state := input[5], input[6], input[7];
      var count, nonzero := FromLittleEndian(input[8..10]), FromLittleEndian(input[10..12]);
      WordBound(input[12..16]);
      WordBound(input[16..20]);
      WordBound(input[20..24]);
      var windowId := FromLittleEndian(input[12..16]);
      var scale := num.fromBits(FromLittleEndian(input[16..20]));
      var stream := input[HEADER_BYTES..];
      if count == 0 || count > MAX_WINDOW || count > capacity || levels == 0 || levels >= 64
         || count / Pow2(levels - 1) < 8 || quantBits < 2 || quantBits > 15 || state >= STATE_COUNT
         || scale.None? || scale.value <= 0.0 || HEADER_BYTES + 4 * nonzero != |input| then
        Err(Format)
      else if Crc32.Update(0, stream) != FromLittleEndian(input[24..28]) then Err(Integrity)
      else
        var placed := PlacedTo(stream, count, nonzero);
        if placed.None? then Err(Format)
        else if !TransformOk(count, levels, MAX_WINDOW) then Err(Range)
        else
          AcceptedSplits(count, levels, MAX_WINDOW);
          var samples := InverseTransform(low, Scaled(placed.value, scale.value), levels);
          Ok(Decoded(windowId, state, levels, quantBits, nonzero, scale.value, FromLittleEndian(input[20..24]),
                     samples))
  }

  lemma WordBound(s: seq<byte>)
    requires |s| == 4
    ensures FromLittleEndian(s) < 0x1_0000_0000
  {
    var a, b, c := s[1..], s[1..][1..], s[1..][1..][1..];
    assert FromLittleEndian(c) == c[0] + 256 * FromLittleEndian(c[1..]);
    assert FromLittleEndian(b) == b[0] + 256 * FromLittleEndian(c);
    assert FromLittleEndian(a) == a[0] + 256 * FromLittleEndian(b);
  }
}
