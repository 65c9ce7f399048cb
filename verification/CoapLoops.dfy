/** The writer and the reader of src/coap_block.c as they run: a moving offset in a caller's
    buffer, against the functions of module Coap. */
module CoapLoops {
  import opened Bits
  import opened Results
  import opened Buffers
  import opened Coap
  import CoapGrammar

  method EncodeExtended(value: nat) returns (r: Result<(byte, seq<byte>)>)
    ensures r == if value <= LONGEST then Ok((Nibble(value), Extension(value))) else Err(Range)
  {
    if value < 13 {
      r := Ok((value, []));
    } else if value < 269 {
      r := Ok((13, [value - 13]));
    } else if value <= 65804 {
      r := Ok((14, BigEndian(value - 269, 2)));
    } else {
      r := Err(Range);
    }
  }

  method AppendOptionAt(output: array<byte>, offset: nat, delta: nat, value: seq<byte>) returns (r: Result<nat>)
    requires offset <= output.Length
    modifies output
    ensures match AppendOption(old(output[..offset]), output.Length, delta, value)
      case Ok(s) => r == Ok(|s|) && |s| <= output.Length && output[..|s|] == s
      case Err(e) => r == Err(e)
  {
    hide Nibble, Extension, BigEndian, Pow2;
    var forDelta :- EncodeExtended(delta);
    var forLength :- EncodeExtended(|value|);
    var (deltaNibble, deltaExtension) := forDelta;
    var (lengthNibble, lengthExtension) := forLength;
    var required := 1 + |deltaExtension| + |lengthExtension| + |value|;
    if offset > output.Length || required > output.Length - offset {
      return Err(Capacity);
    }
    CoapGrammar.HeaderIsNotMarker(delta, |value|);
    PrependOption(output[..offset], delta, value);
    WriteOption(output, offset, 16 * deltaNibble + lengthNibble, deltaExtension, lengthExtension, value);
    return Ok(offset + required);
  }

  /** Header, extensions and value, one after the other. */
  method WriteOption(output: array<byte>, offset: nat, header: byte, deltaExtension: seq<byte>,
                     lengthExtension: seq<byte>, value: seq<byte>)
    requires offset + 1 + |deltaExtension| + |lengthExtension| + |value| <= output.Length
    modifies output
    ensures output[..offset + 1 + |deltaExtension| + |lengthExtension| + |value|]
         == old(output[..offset]) + [header] + deltaExtension + lengthExtension + value
  {
    Put(output, offset, [header]);
    var at := offset + 1;
    Put(output, at, deltaExtension);
    at := at + |deltaExtension|;
    Put(output, at, lengthExtension);
    at := at + |lengthExtension|;
    Put(output, at, value);
  }

  lemma PrependOption(before: seq<byte>, delta: nat, value: seq<byte>)
    requires delta <= LONGEST && |value| <= LONGEST
    ensures before + OptionBytes(delta, value)
         == before + [OptionHeader(delta, |value|)] + Extension(delta) + Extension(|value|) + value
  {
    hide OptionHeader, Extension;
  }

  /** Counting from the end, byte i of a big-endian string is the value shifted right 8i bits. */
  lemma {:induction false} BigEndianShift(v: nat, n: nat, i: nat)
    requires i < n <= 4
    ensures BigEndian(v, n)[n - 1 - i] == v / Pow2(8 * i) % 256
    decreases i
  {
    if i == 0 {
    } else {
      BigEndianShift(v / 256, n - 1, i - 1);
      hide BigEndian;
      ShiftTwice(v, i);
    }
  }

  lemma ShiftTwice(v: nat, i: nat)
    requires 1 <= i <= 3
    ensures v / 256 / Pow2(8 * (i - 1)) == v / Pow2(8 * i)
  {
    assert Pow2(0) == 1;
    Pow2Values();
    hide Pow2;
    if i == 2 { DivideTwice(v, 0x100); }
    if i == 3 { DivideTwice(v, 0x1_0000); }
  }

  lemma DivideTwice(v: nat, d: nat)
    requires d == 0x100 || d == 0x1_0000
    ensures v / 256 / d == v / (256 * d)
  {
  }

  method EncodeUint(value: u32) returns (encoded: seq<byte>)
    ensures encoded == MinBytes(value)
  {
    if value == 0 { return []; }
    var length: nat := if value <= 0xff then 1 else if value <= 0xffff then 2 else if value <= 0xff_ffff then 3 else 4;
    var output := new byte[4];
    for i := 0 to length
      invariant forall t :: length - i <= t < length ==> output[t] == BigEndian(value, length)[t]
    {
      BigEndianShift(value, length, i);
      output[length - 1 - i] := value / Pow2(8 * i) % 256;
    }
    return output[..length];
  }

  // ----- the path -----

  lemma SkipSlash(path: seq<byte>, cursor: nat)
    requires cursor < |path| && path[cursor] == SLASH
    ensures Segments(path[cursor..]) == Segments(path[cursor + 1..])
  {
    assert path[cursor..][1..] == path[cursor + 1..];
  }

  method SkipSlashes(path: seq<byte>, start: nat) returns (cursor: nat)
    requires start <= |path|
    ensures start <= cursor <= |path| && (cursor < |path| ==> path[cursor] != SLASH)
    ensures Segments(path[cursor..]) == Segments(path[start..])
  {
    cursor := start;
    while cursor < |path| && path[cursor] == SLASH
      invariant start <= cursor <= |path|
      invariant Segments(path[cursor..]) == Segments(path[start..])
    {
      SkipSlash(path, cursor);
      cursor := cursor + 1;
    }
  }

  method FindEnd(path: seq<byte>, cursor: nat) returns (end: nat)
    requires cursor <= |path|
    ensures end == cursor + SegmentEnd(path[cursor..]) <= |path|
  {
    end := cursor;
    while end < |path| && path[end] != SLASH
      invariant cursor <= end <= |path|
      invariant cursor + SegmentEnd(path[cursor..]) == end + SegmentEnd(path[end..])
    {
      assert path[end..][1..] == path[end + 1..];
      end := end + 1;
    }
  }

  method AppendUriPath(output: array<byte>, offset: nat, path: seq<byte>) returns (r: Result<nat>)
    requires offset <= output.Length
    modifies output
    ensures match AppendSegments(old(output[..offset]), output.Length, Segments(path), true)
      case Ok(s) => r == Ok(|s|) && |s| <= output.Length && output[..|s|] == s
      case Err(e) => r == Err(e)
  {
    hide Segments, SegmentEnd, AppendOption;
    var first, at: nat := true, offset;
    var cursor := SkipSlashes(path, 0);
    assert path[0..] == path;
    ghost var wanted := AppendSegments(output[..offset], output.Length, Segments(path), true);
    while cursor < |path|
      invariant cursor <= |path| && at <= output.Length
      invariant cursor < |path| ==> path[cursor] != SLASH
      invariant AppendSegments(output[..at], output.Length, Segments(path[cursor..]), first) == wanted
      decreases |path| - cursor
    {
      var end := FindEnd(path, cursor);
      FirstSegment(path, cursor, end);
      var next := AppendOptionAt(output, at, if first then URI_PATH else 0, path[cursor..end]);
      if next.Err? { return Err(next.error); }
      at, first := next.value, false;
      cursor := SkipSlashes(path, end);
    }
    NoMoreSegments(path, cursor);
    if first { return Err(Format); }
    return Ok(at);
  }

  lemma FirstSegment(path: seq<byte>, cursor: nat, end: nat)
    requires cursor < |path| && path[cursor] != SLASH && end == cursor + SegmentEnd(path[cursor..]) <= |path|
    ensures end > cursor
    ensures Segments(path[cursor..]) == [path[cursor..end]] + Segments(path[end..])
    ensures Segments(path[cursor..])[1..] == Segments(path[end..])
  {
    var n := SegmentEnd(path[cursor..]);
    assert path[cursor..][..n] == path[cursor..end] && path[cursor..][n..] == path[end..];
  }

  lemma NoMoreSegments(path: seq<byte>, cursor: nat)
    requires cursor == |path|
    ensures Segments(path[cursor..]) == []
  {
  }

  // ----- building -----

  method WriteFixed(block: Block, output: array<byte>)
    requires |block.token| <= 8 && output.Length >= 4 + |block.token|
    modifies output
    ensures output[..4 + |block.token|] == Fixed(block)
  {
    hide BigEndian;
    Put(output, 0, [64 + 16 * (block.typ % 4) + |block.token|, block.code] + BigEndian(block.messageId, 2));
    assert output[..4] == [64 + 16 * (block.typ % 4) + |block.token|, block.code] + BigEndian(block.messageId, 2);
    Put(output, 4, block.token);
  }

  method WritePayload(payload: seq<byte>, output: array<byte>, offset: nat) returns (r: Result<nat>)
    requires offset <= output.Length
    modifies output
    ensures match AppendPayload(old(output[..offset]), output.Length, payload)
      case Ok(p) => r == Ok(|p|) && |p| <= output.Length && output[..|p|] == p
      case Err(e) => r == Err(e)
  {
    if |payload| == 0 { return Ok(offset); }
    if offset >= output.Length || |payload| > output.Length - offset - 1 {
      return Err(Capacity);
    }
    Put(output, offset, [MARKER]);
    Put(output, offset + 1, payload);
    return Ok(offset + 1 + |payload|);
  }

  method BuildBlock1(block: Block, path: seq<byte>, output: array<byte>) returns (r: Result<nat>)
    modifies output
    ensures match Build(block, path, output.Length)
      case Ok(p) => r == Ok(|p|) && |p| <= output.Length && output[..|p|] == p
      case Err(e) => r == Err(e)
  {
    hide AppendSegments, AppendOption, Segments, MinBytes, BlockValue, BigEndian;
    if |block.token| > 8 || block.szx > 6 || block.number > 0xf_ffff || output.Length < 4 + |block.token| {
      return Err(Argument);
    }
    WriteFixed(block, output);
    var named :- AppendUriPath(output, 4 + |block.token|, path);
    var encoded := EncodeUint(block.contentFormat);
    var format :- AppendOptionAt(output, named, CONTENT_FORMAT - URI_PATH, encoded);
    encoded := EncodeUint(BlockValue(block));
    var offset :- AppendOptionAt(output, format, BLOCK1 - CONTENT_FORMAT, encoded);
    if block.size1 > 0 {
      encoded := EncodeUint(block.size1);
      offset :- AppendOptionAt(output, offset, SIZE1 - BLOCK1, encoded);
    }
    r := WritePayload(block.payload, output, offset);
  }

  // ----- parsing -----

  method DecodeExtended(nibble: byte, packet: seq<byte>, offset: nat) returns (r: Result<(nat, nat)>)
    requires offset <= |packet|
    ensures var e := ReadExtended(nibble, packet[offset..]);
      r == if e.None? then Err(Format) else Ok((e.value.0, offset + e.value.1))
  {
    if nibble < 13 { return Ok((nibble, offset)); }
    if nibble == 13 {
      if offset >= |packet| { return Err(Format); }
      return Ok((TwoBytes(0, packet[offset]) + 13, offset + 1));
    }
    if nibble == 14 {
      if offset > |packet| || |packet| - offset < 2 { return Err(Format); }
      return Ok((TwoBytes(packet[offset], packet[offset + 1]) + 269, offset + 2));
    }
    return Err(Format);
  }

  method DecodeUint(input: seq<byte>) returns (r: Result<u32>)
    ensures |input| > 4 ==> r == Err(Format)
    ensures |input| <= 4 ==> FromBigEndian(input) < 0x1_0000_0000 && r == Ok(FromBigEndian(input))
  {
    if |input| > 4 { return Err(Format); }
    var result: nat := 0;
    for i := 0 to |input|
      invariant result == FromBigEndian(input[..i])
    {
      assert input[..i + 1][..i] == input[..i];
      result := result * 256 + input[i];
    }
    assert input[..|input|] == input;
    FromBigEndianBound(input);
    ShortPower(|input|);
    Pow2Values();
    return Ok(result);
  }

  /** The option at the offset of the loop, as the next option of the rest of the packet. */
  method ReadAt(packet: seq<byte>, offset: nat) returns (r: Result<(nat, seq<byte>, nat)>)
    requires offset < |packet|
    ensures var o := ReadOption(packet[offset..]);
      r == if o.None? then Err(Format) else Ok((o.value.0, o.value.1, offset + o.value.2))
    ensures r.Ok? ==> offset < r.value.2 <= |packet|
  {
    hide ReadExtended, TwoBytes, FromBigEndian;
    var header := packet[offset];
    ghost var s := packet[offset..];
    assert s[1..] == packet[offset + 1..];
    var forDelta :- DecodeExtended(header / 16, packet, offset + 1);
    var (delta, afterDelta) := forDelta;
    assert s[afterDelta - offset..] == packet[afterDelta..];
    var forLength :- DecodeExtended(header % 16, packet, afterDelta);
    var (length, start) := forLength;
    if start > |packet| || length > |packet| - start { return Err(Format); }
    assert s[start - offset..start - offset + length] == packet[start..start + length];
    return Ok((delta, packet[start..start + length], start + length));
  }

  lemma UnusableForGood(opts: seq<Opt>, i: nat)
    requires i < |opts| && !Usable(opts[i])
    ensures !AllUsable(opts)
  {
  }

  /** The fields that options set; found says whether Block1 has been seen. */
  datatype Fields = Fields(found: bool, number: u32, more: byte, szx: byte, contentFormat: u32, size1: u32)

  /** The fields are those of the options seen, each from its last occurrence. */
  predicate FieldsOf(f: Fields, seen: seq<Opt>) {
    AllUsable(seen) && f.contentFormat == UintOf(LastOf(seen, CONTENT_FORMAT)) && f.size1 == UintOf(LastOf(seen, SIZE1))
    && f.found == LastOf(seen, BLOCK1).Some?
    && var value := UintOf(LastOf(seen, BLOCK1));
    f.number == value / 16 && f.more == value / 8 % 2 && f.szx == value % 8
  }

  /** One option into the fields; None when its value is refused. */
  method TakeOption(f: Fields, optionNumber: nat, bytes: seq<byte>, ghost seen: seq<Opt>) returns (r: Option<Fields>)
    requires FieldsOf(f, seen)
    ensures r.Some? <==> Usable(Opt(optionNumber, bytes))
    ensures r.Some? ==> FieldsOf(r.value, seen + [Opt(optionNumber, bytes)])
  {
    hide FromBigEndian, LastOf, AllUsable;
    ghost var o := Opt(optionNumber, bytes);
    LastOfMore(seen, o, CONTENT_FORMAT);
    LastOfMore(seen, o, BLOCK1);
    LastOfMore(seen, o, SIZE1);
    UsableMore(seen, o);
    if optionNumber != CONTENT_FORMAT && optionNumber != BLOCK1 && optionNumber != SIZE1 { return Some(f); }
    var decoded := DecodeUint(bytes);
    if decoded.Err? || (optionNumber == BLOCK1 && decoded.value % 8 > 6) { return None; }
    var value := decoded.value;
    if optionNumber == CONTENT_FORMAT { return Some(f.(contentFormat := value)); }
    if optionNumber == SIZE1 { return Some(f.(size1 := value)); }
    return Some(f.(szx := value % 8, more := value / 8 % 2, number := value / 16, found := true));
  }

  lemma LastOfMore(seen: seq<Opt>, o: Opt, number: nat)
    ensures LastOf(seen + [o], number) == if o.number == number then Some(o.value) else LastOf(seen, number)
  {
    assert (seen + [o])[..|seen|] == seen;
  }

  lemma UsableMore(seen: seq<Opt>, o: Opt)
    ensures AllUsable(seen) && Usable(o) ==> AllUsable(seen + [o])
  {
  }

  method ParseBlock1(packet: seq<byte>) returns (r: Result<Block>)
    ensures r == Parse(packet)
  {
    hide ReadOptions, ReadOption, TwoBytes, FieldsOf, ParseWith, LastOf, UintOf, AllUsable;
    if |packet| < 4 || packet[0] / 64 != 1 || packet[0] % 16 > 8 { return Err(Format); }
    var tokenLength := packet[0] % 16;
    if |packet| < 4 + tokenLength { return Err(Format); }
    var start := 4 + tokenLength;
    var offset, optionNumber, fields := start, 0, Fields(false, 0, 0, 0, 0, 0);
    ghost var seen: seq<Opt> := [];
    ghost var all := ReadOptions(packet[start..], 0);
    PrefixedNone(all);
    NoFields();
    while offset < |packet| && packet[offset] != MARKER
      invariant start <= offset <= |packet| && optionNumber <= MAX_OPTION_NUMBER
      invariant all == Prefixed(seen, ReadOptions(packet[offset..], optionNumber))
      invariant FieldsOf(fields, seen)
      decreases |packet| - offset
    {
      CoapGrammar.ReadStep(packet[offset..], optionNumber);
      var option := ReadAt(packet, offset);
      if option.Err? {
        NothingRead(packet, all);
        return Err(Format);
      }
      var (delta, bytes, next) := option.value;
      if optionNumber > MAX_OPTION_NUMBER - delta {
        NothingRead(packet, all);
        return Err(Format);
      }
      optionNumber := optionNumber + delta;
      ghost var o := Opt(optionNumber, bytes);
      assert packet[offset..][next - offset..] == packet[next..];
      PrefixedMore(seen, o, ReadOptions(packet[next..], optionNumber));
      var taken := TakeOption(fields, optionNumber, bytes, seen);
      if taken.None? {
        Refused(seen, o, ReadOptions(packet[next..], optionNumber));
        Unusable(packet, all);
        return Err(Format);
      }
      fields, seen, offset := taken.value, seen + [o], next;
    }
    CoapGrammar.ReadStep(packet[offset..], optionNumber);
    assert seen + [] == seen;
    r := TakePayload(packet, offset, seen, fields);
  }

  lemma NoFields()
    ensures FieldsOf(Fields(false, 0, 0, 0, 0, 0), [])
  {
  }

  lemma NothingRead(packet: seq<byte>, options: Option<(seq<Opt>, seq<byte>)>)
    requires |packet| >= 4 && packet[0] % 16 <= 8 && |packet| >= 4 + packet[0] % 16 && options.None?
    ensures ParseWith(packet, options) == Err(Format)
  {
  }

  lemma Unusable(packet: seq<byte>, options: Option<(seq<Opt>, seq<byte>)>)
    requires |packet| >= 4 && packet[0] % 16 <= 8 && |packet| >= 4 + packet[0] % 16
    requires options.None? || !AllUsable(options.value.0)
    ensures ParseWith(packet, options) == Err(Format)
  {
  }

  /** What follows the options: nothing, or the marker and a payload. */
  method TakePayload(packet: seq<byte>, end: nat, ghost seen: seq<Opt>, f: Fields) returns (r: Result<Block>)
    requires |packet| >= 4 && packet[0] % 16 <= 8 && 4 + packet[0] % 16 <= end <= |packet|
    requires end < |packet| ==> packet[end] == MARKER
    requires FieldsOf(f, seen)
    ensures r == ParseWith(packet, Some((seen, packet[end..])))
  {
    hide AllUsable, LastOf, UintOf, TwoBytes;
    if !f.found { return Err(Format); }
    var payload: seq<byte> := [];
    if end < |packet| {
      if end + 1 == |packet| { return Err(Format); }
      payload := packet[end + 1..];
      assert packet[end..][1..] == payload;
    }
    return Ok(Block((packet[0] / 16) % 4, packet[1], TwoBytes(packet[2], packet[3]), packet[4..4 + packet[0] % 16],
                    f.number, f.more, f.szx, f.contentFormat, f.size1, payload));
  }

  ghost function Prefixed(seen: seq<Opt>, rest: Option<(seq<Opt>, seq<byte>)>): Option<(seq<Opt>, seq<byte>)> {
    if rest.None? then None else Some((seen + rest.value.0, rest.value.1))
  }

  lemma PrefixedNone(rest: Option<(seq<Opt>, seq<byte>)>)
    ensures Prefixed([], rest) == rest
  {
    if rest.Some? { assert [] + rest.value.0 == rest.value.0; }
  }

  lemma PrefixedMore(seen: seq<Opt>, o: Opt, rest: Option<(seq<Opt>, seq<byte>)>)
    ensures Prefixed(seen, Prefixed([o], rest)) == Prefixed(seen + [o], rest)
  {
    if rest.Some? { assert seen + ([o] + rest.value.0) == (seen + [o]) + rest.value.0; }
  }

  lemma Refused(seen: seq<Opt>, o: Opt, rest: Option<(seq<Opt>, seq<byte>)>)
    requires !Usable(o)
    ensures Prefixed(seen + [o], rest).None? || !AllUsable(Prefixed(seen + [o], rest).value.0)
  {
    if rest.Some? { UnusableForGood(seen + [o] + rest.value.0, |seen|); }
  }
}
