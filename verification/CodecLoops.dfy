/** The loops of src/codec.c over its buffers, against the functions of module Codec. */
module CodecLoops {
  import opened Bits
  import opened Results
  import opened Buffers
  import Crc32
  import opened Reals
  import opened Wavelet
  import opened Codec

  method FindPeak(c: array<real>, count: nat) returns (maximum: real)
    requires count <= c.Length
    ensures maximum == PeakTo(c[..count], count)
  {
    maximum := 0.0;
    ghost var all := c[..count];
    for i := 0 to count
      invariant maximum == PeakTo(all, i)
    {
      var magnitude := Abs(c[i]);
      if magnitude > maximum { maximum := magnitude; }
    }
  }

  method QuantizeOne(c: real, scale: real, limit: int) returns (quantized: int)
    requires scale > 0.0 && limit >= 0
    ensures quantized == Quantize(c, scale, limit)
  {
    quantized := RoundHalfAway(c / scale);
    if quantized > limit { quantized := limit; }
    if quantized < -limit { quantized := -limit; }
  }

  method CountNonzero(c: array<real>, count: nat, scale: real, limit: int) returns (nonzero: nat)
    requires count <= c.Length && scale > 0.0 && limit >= 0
    ensures nonzero == NonzeroTo(Quantized(c[..count], scale, limit), count)
  {
    nonzero := 0;
    ghost var q := Quantized(c[..count], scale, limit);
    for i := 0 to count
      invariant nonzero == NonzeroTo(q, i)
    {
      var quantized := QuantizeOne(c[i], scale, limit);
      assert quantized == q[i];
      if quantized != 0 { nonzero := nonzero + 1; }
    }
  }

  lemma {:induction false} NonzeroMonotonic(q: seq<int>, m: nat, n: nat)
    requires m <= n <= |q|
    ensures NonzeroTo(q, m) <= NonzeroTo(q, n)
    decreases n
  {
    if m == n {
    } else {
      NonzeroMonotonic(q, m, n - 1);
    }
  }

  method WriteEntry(output: array<byte>, offset: nat, index: nat, quantized: int)
    requires HEADER_BYTES <= offset && offset + 4 <= output.Length
    modifies output
    ensures output[..HEADER_BYTES] == old(output[..HEADER_BYTES])
    ensures output[HEADER_BYTES..offset + 4] == old(output[HEADER_BYTES..offset]) + Entry(index, quantized)
  {
    hide LittleEndian;
    ghost var before := output[..offset];
    Put(output, offset, LittleEndian(index, 2));
    Put(output, offset + 2, LittleEndian(Word(quantized), 2));
    assert output[..offset + 4] == before + Entry(index, quantized);
    assert output[..HEADER_BYTES] == output[..offset + 4][..HEADER_BYTES] == before[..HEADER_BYTES];
    assert output[HEADER_BYTES..offset + 4] == output[..offset + 4][HEADER_BYTES..];
  }

  lemma NoEntries(q: seq<int>)
    ensures NonzeroTo(q, 0) == 0 && SparseTo(q, 0) == []
  {
  }

  lemma StreamStep(q: seq<int>, i: nat)
    requires i < |q|
    ensures q[i] == 0 ==> NonzeroTo(q, i + 1) == NonzeroTo(q, i) && SparseTo(q, i + 1) == SparseTo(q, i)
    ensures q[i] != 0 ==> NonzeroTo(q, i + 1) == NonzeroTo(q, i) + 1
                          && SparseTo(q, i + 1) == SparseTo(q, i) + Entry(i, q[i])
  {
    hide Entry;
  }

  method WriteStream(c: array<real>, count: nat, scale: real, limit: int, output: array<byte>)
    returns (writeOffset: nat)
    requires count <= c.Length && count <= MAX_WINDOW && scale > 0.0 && limit >= 0
    requires HEADER_BYTES + 4 * NonzeroTo(Quantized(c[..count], scale, limit), count) <= output.Length
    modifies output
    ensures var q := Quantized(c[..count], scale, limit);
      writeOffset == HEADER_BYTES + 4 * NonzeroTo(q, count) <= output.Length
      && output[HEADER_BYTES..writeOffset] == SparseTo(q, count)
    ensures output[..HEADER_BYTES] == old(output[..HEADER_BYTES])
  {
    hide Entry, Quantize, SparseTo, NonzeroTo;
    writeOffset := HEADER_BYTES;
    ghost var q := Quantized(c[..count], scale, limit);
    NoEntries(q);
    for i := 0 to count
      invariant writeOffset == HEADER_BYTES + 4 * NonzeroTo(q, i) <= output.Length
      invariant output[HEADER_BYTES..writeOffset] == SparseTo(q, i)
      invariant output[..HEADER_BYTES] == old(output[..HEADER_BYTES])
    {
      NonzeroMonotonic(q, i + 1, count);
      StreamStep(q, i);
      var quantized := QuantizeOne(c[i], scale, limit);
      assert quantized == q[i];
      if quantized != 0 {
        WriteEntry(output, writeOffset, i, quantized);
        writeOffset := writeOffset + 4;
      }
    }
  }

  /** The header fields, written in the order of the source; the check value is still zero. */
  method WriteFront(output: array<byte>, h: Header)
    requires HEADER_BYTES <= output.Length
    modifies output
    ensures output[..24] == Front(h)
  {
    hide LittleEndian;
    forall t | 0 <= t < HEADER_BYTES { output[t] := 0; }
    Put(output, 0, MAGIC);
    assert output[..4] == MAGIC;
    Put(output, 4, [VERSION, h.levels, h.quantBits, h.state]);
    Put(output, 8, LittleEndian(h.count, 2));
    Put(output, 10, LittleEndian(h.nonzero, 2));
    Put(output, 12, LittleEndian(h.windowId, 4));
    Put(output, 16, LittleEndian(h.scaleBits, 4));
    Put(output, 20, LittleEndian(h.thresholdBits, 4));
  }

  /** Header, stream and check value of already thresholded coefficients. */
  method WriteWindow(c: array<real>, count: nat, scale: real, limit: int, h: Header, output: array<byte>)
    returns (length: nat)
    requires count <= c.Length && count <= MAX_WINDOW && scale > 0.0 && limit >= 0
    requires HEADER_BYTES + 4 * NonzeroTo(Quantized(c[..count], scale, limit), count) <= output.Length
    modifies output
    ensures length == HEADER_BYTES + 4 * NonzeroTo(Quantized(c[..count], scale, limit), count)
    ensures output[..length] == Framed(h, SparseTo(Quantized(c[..count], scale, limit), count))
  {
    hide LittleEndian, Front, SparseTo, NonzeroTo, Quantized;
    WriteFront(output, h);
    length := WriteStream(c, count, scale, limit, output);
    ghost var stream := output[HEADER_BYTES..length];
    assert output[..24] == output[..HEADER_BYTES][..24] == Front(h);
    var crc := Crc32.Crc32Update(0, output[HEADER_BYTES..length]);
    Put(output, 24, LittleEndian(crc, 4));
    assert output[HEADER_BYTES..length] == output[HEADER_BYTES..][..length - HEADER_BYTES] == stream;
    assert output[..length] == output[..HEADER_BYTES] + output[HEADER_BYTES..length];
  }

  method Encode(samples: seq<real>, windowId: u32, state: byte, policy: Policy,
                output: array<byte>, num: Numerics, low: Filter) returns (r: Result<nat>)
    requires WidthOk(policy.quantBits)
    modifies output
    ensures match Encoded(samples, windowId, state, policy, output.Length, num, low)
      case Ok(bytes) => r == Ok(|bytes|) && |bytes| <= output.Length && output[..|bytes|] == bytes
      case Err(e) => r == Err(e)
  {
    if state >= STATE_COUNT { return Err(Argument); }
    if |samples| != policy.windowSize || |samples| > MAX_WINDOW { return Err(Range); }
    var count := |samples|;
    var coefficients := new real[MAX_WINDOW];
    var scratch := new real[MAX_WINDOW];
    forall t | 0 <= t < count { coefficients[t] := samples[t]; }
    assert coefficients[..count] == samples;
    var transformed := Db4Forward(coefficients, count, policy.levels, scratch, MAX_WINDOW, low);
    if transformed.Failure? { return Err(transformed.error); }
    AcceptedSplits(count, policy.levels, MAX_WINDOW);
    LimitRange(policy.quantBits);
    var threshold := ThresholdFor(coefficients[..count], policy, num);
    SoftThreshold(coefficients, count / Pow2(policy.levels), count, threshold);
    ghost var kept := coefficients[..count];
    assert kept == Kept(samples, policy, num, low);
    var maximum := FindPeak(coefficients, count);
    var limit := Limit(policy.quantBits);
    var scale := if maximum > 0.0 then maximum / (limit as real) else 1.0;
    assert scale == ScaleFor(kept, limit);
    var nonzero := CountNonzero(coefficients, count, scale, limit);
    if HEADER_BYTES + 4 * nonzero > output.Length { return Err(Capacity); }
    var h := Header(policy.levels, policy.quantBits, state, count, nonzero, windowId,
                    num.toBits(scale), num.toBits(threshold));
    var length := WriteWindow(coefficients, count, scale, limit, h, output);
    return Ok(length);
  }

  // ----- decoding -----

  method ClearSamples(samples: array<real>, count: nat, ghost scale: real)
    requires count <= samples.Length
    modifies samples
    ensures samples[..count] == Scaled(Zeros(count), scale)
  {
    forall t | 0 <= t < count { samples[t] := 0.0; }
  }

  method PlaceOne(samples: array<real>, count: nat, index: nat, quantized: int, scale: real,
                  ghost before: seq<int>)
    requires index < count == |before| && count <= samples.Length
    requires samples[..count] == Scaled(before, scale)
    modifies samples
    ensures samples[..count] == Scaled(before[index := quantized], scale)
  {
    hide Times;
    samples[index] := Times(quantized as real, scale);
  }

  method PlaceEntries(stream: seq<byte>, count: nat, nonzero: nat, scale: real, samples: array<real>)
    returns (ok: bool)
    requires 4 * nonzero == |stream| && count <= samples.Length
    modifies samples
    ensures ok == PlacedTo(stream, count, nonzero).Some?
    ensures ok ==> samples[..count] == Scaled(PlacedTo(stream, count, nonzero).value, scale)
  {
    hide IndexAt, ValueAt, Scaled;
    ClearSamples(samples, count, scale);
    var havePrevious, previous := false, 0;
    for i := 0 to nonzero
      invariant havePrevious == (i > 0) && (havePrevious ==> previous == IndexAt(stream, i - 1))
      invariant PlacedTo(stream, count, i).Some?
      invariant samples[..count] == Scaled(PlacedTo(stream, count, i).value, scale)
    {
      ghost var before := PlacedTo(stream, count, i).value;
      var index := IndexAt(stream, i);
      var quantized := ValueAt(stream, i);
      if index >= count || (havePrevious && index <= previous) {
        RefusedForGood(stream, count, i + 1, nonzero);
        return false;
      }
      PlaceOne(samples, count, index, quantized, scale, before);
      previous, havePrevious := index, true;
    }
    return true;
  }

  lemma {:induction false} RefusedForGood(stream: seq<byte>, count: nat, i: nat, n: nat)
    requires i <= n && 4 * n <= |stream| && PlacedTo(stream, count, i).None?
    ensures PlacedTo(stream, count, n).None?
    decreases n
  {
    if i == n {
    } else {
      RefusedForGood(stream, count, i, n - 1);
    }
  }

  method DecodeWindow(input: seq<byte>, samples: array<real>, num: Numerics, low: Filter)
    returns (r: Result<Decoded>)
    modifies samples
    ensures r == Decode(input, samples.Length, num, low)
    ensures r.Ok? ==> |r.value.samples| <= samples.Length
                      && samples[..|r.value.samples|] == r.value.samples
  {
    if |input| < HEADER_BYTES || input[..4] != MAGIC || input[4] != VERSION { return Err(Format); }
    var levels, quantBits, state := input[5], input[6], input[7];
    var count, nonzero := FromLittleEndian(input[8..10]), FromLittleEndian(input[10..12]);
    WordBound(input[12..16]);
    WordBound(input[16..20]);
    WordBound(input[20..24]);
    var threshold := FromLittleEndian(input[20..24]);
    var windowId := FromLittleEndian(input[12..16]);
    var scale := num.fromBits(FromLittleEndian(input[16..20]));
    var expected := FromLittleEndian(input[24..28]);
    if count == 0 || count > MAX_WINDOW || count > samples.Length || levels == 0 || levels >= 64
       || count / Pow2(levels - 1) < 8 || quantBits < 2 || quantBits > 15 || state >= STATE_COUNT
       || scale.None? || scale.value <= 0.0 || HEADER_BYTES + 4 * nonzero != |input| {
      return Err(Format);
    }
    var stream := input[HEADER_BYTES..];
    var actual := Crc32.Crc32Update(0, stream);
    if actual != expected { return Err(Integrity); }
    var ok := PlaceEntries(stream, count, nonzero, scale.value, samples);
    if !ok { return Err(Format); }
    var scratch := new real[MAX_WINDOW];
    var inverted := Db4Inverse(samples, count, levels, scratch, MAX_WINDOW, low);
    if inverted.Failure? { return Err(inverted.error); }
    r := Ok(Decoded(windowId, state, levels, quantBits, nonzero, scale.value, threshold, samples[..count]));
  }
}
