/** CoAP requests carrying one Block1 block (src/coap_block.c): what is written, the option
    list grammar of section 3.1 of RFC 7252, and what is read back. */
module Coap {
  import opened Bits
  import opened Results

  const MARKER: byte := 0xff
  const SLASH: byte := 0x2f
  const LONGEST: nat := 65804
  const MAX_OPTION_NUMBER: nat := 0xffff_ffff

  const URI_PATH: nat := 11
  const CONTENT_FORMAT: nat := 12
  const BLOCK1: nat := 27
  const SIZE1: nat := 60

  datatype Block = Block(typ: byte, code: byte, messageId: u16, token: seq<byte>, number: u32,
                         more: byte, szx: byte, contentFormat: u32, size1: u32, payload: seq<byte>)

  datatype Opt = Opt(number: nat, value: seq<byte>)

  function BlockSize(szx: byte): nat {
    if szx > 6 then 0 else Pow2(szx + 4)
  }

  // ----- one option on the wire -----

  function Nibble(v: nat): (n: byte)
    requires v <= LONGEST
    ensures n < 15
  {
    if v < 13 then v else if v < 269 then 13 else 14
  }

  function Extension(v: nat): (e: seq<byte>)
    requires v <= LONGEST
    ensures |e| <= 2
  {
    if v < 13 then [] else if v < 269 then [v - 13] else BigEndian(v - 269, 2)
  }

  /** A delta or a length read from its nibble and the bytes after it: value and bytes used. */
  function ReadExtended(nibble: nat, s: seq<byte>): (r: Option<(nat, nat)>)
    ensures r.Some? ==> r.value.1 <= |s|
  {
    if nibble < 13 then Some((nibble, 0))
    else if nibble == 13 && |s| >= 1 then Some((TwoBytes(0, s[0]) + 13, 1))
    else if nibble == 14 && |s| >= 2 then Some((TwoBytes(s[0], s[1]) + 269, 2))
    else None
  }

  function OptionHeader(delta: nat, length: nat): byte
    requires delta <= LONGEST && length <= LONGEST
  {
    16 * Nibble(delta) + Nibble(length)
  }

  function OptionBytes(delta: nat, value: seq<byte>): (s: seq<byte>)
    requires delta <= LONGEST && |value| <= LONGEST
    ensures |s| >= 1
  {
    [OptionHeader(delta, |value|)] + Extension(delta) + Extension(|value|) + value
  }

  /** Delta, value and total size of the option at the front of s. */
  function ReadOption(s: seq<byte>): (r: Option<(nat, seq<byte>, nat)>)
    requires s != []
    ensures r.Some? ==> 1 <= r.value.2 <= |s|
  {
    var delta := ReadExtended(s[0] / 16, s[1..]);
    if delta.None? then None
    else
      var afterDelta := 1 + delta.value.1;
      var length := ReadExtended(s[0] % 16, s[afterDelta..]);
      if length.None? then None
      else
        var start := afterDelta + length.value.1;
        if length.value.0 > |s| - start then None
        else Some((delta.value.0, s[start..start + length.value.0], start + length.value.0))
  }

  // ----- option lists -----

  /** The grammar: ascending numbers, encodable deltas and lengths. */
  predicate WellFormed(opts: seq<Opt>, previous: nat)
    decreases |opts|
  {
    opts == [] ||
    (previous <= opts[0].number <= MAX_OPTION_NUMBER && opts[0].number - previous <= LONGEST
     && |opts[0].value| <= LONGEST && WellFormed(opts[1..], opts[0].number))
  }

  function Wire(opts: seq<Opt>, previous: nat): seq<byte>
    requires WellFormed(opts, previous)
    decreases |opts|
  {
    if opts == [] then []
    else OptionBytes(opts[0].number - previous, opts[0].value) + Wire(opts[1..], opts[0].number)
  }

  predicate EndsOptions(tail: seq<byte>) {
    tail == [] || tail[0] == MARKER
  }

  /** The options at the front of s, and what follows them. */
  function ReadOptions(s: seq<byte>, previous: nat): Option<(seq<Opt>, seq<byte>)>
    decreases |s|
  {
    if EndsOptions(s) then Some(([], s))
    else
      var option := ReadOption(s);
      if option.None? || previous > MAX_OPTION_NUMBER - option.value.0 then None
      else
        var number := previous + option.value.0;
        var rest := ReadOptions(s[option.value.2..], number);
        if rest.None? then None
        else Some(([Opt(number, option.value.1)] + rest.value.0, rest.value.1))
  }

  function LastOf(opts: seq<Opt>, number: nat): Option<seq<byte>>
    decreases |opts|
  {
    if opts == [] then None
    else
      var last := opts[|opts| - 1];
      if last.number == number then Some(last.value) else LastOf(opts[..|opts| - 1], number)
  }

  function UintOf(value: Option<seq<byte>>): nat {
    if value.None? then 0 else FromBigEndian(value.value)
  }

  /** The integers of the options that the receiver uses fit 32 bits, and no Block1 value
      carries the reserved size exponent 7 (section 2.2 of RFC 7959). */
  predicate Usable(o: Opt) {
    (o.number == CONTENT_FORMAT || o.number == BLOCK1 || o.number == SIZE1 ==> |o.value| <= 4)
    && (o.number == BLOCK1 ==> FromBigEndian(o.value) % 8 <= 6)
  }

  predicate AllUsable(opts: seq<Opt>) {
    forall i :: 0 <= i < |opts| ==> Usable(opts[i])
  }

  lemma UintBound(opts: seq<Opt>, number: nat)
    requires AllUsable(opts) && number in {CONTENT_FORMAT, BLOCK1, SIZE1}
    ensures UintOf(LastOf(opts, number)) < 0x1_0000_0000
    decreases |opts|
  {
    if opts != [] {
      var last := opts[|opts| - 1];
      if last.number == number {
        FromBigEndianBound(last.value);
        Pow2Values();
        ShortPower(|last.value|);
      } else {
        UintBound(opts[..|opts| - 1], number);
      }
    }
  }

  lemma ShortPower(n: nat)
    requires n <= 4
    ensures Pow2(8 * n) <= Pow2(32)
  {
    Pow2Values();
    assert n == 0 || n == 1 || n == 2 || n == 3 || n == 4;
  }

  // ----- the request -----

  function Fixed(block: Block): (s: seq<byte>)
    requires |block.token| <= 8
    ensures |s| == 4 + |block.token|
  {
    [64 + 16 * (block.typ % 4) + |block.token|, block.code] + BigEndian(block.messageId, 2) + block.token
  }

  /** The block described by a list of options and what follows it. */
  function BlockOf(typ: byte, code: byte, messageId: u16, token: seq<byte>, opts: seq<Opt>, payload: seq<byte>): Block
    requires AllUsable(opts)
  {
    UintBound(opts, CONTENT_FORMAT);
    UintBound(opts, BLOCK1);
    UintBound(opts, SIZE1);
    var value := UintOf(LastOf(opts, BLOCK1));
    Block(typ, code, messageId, token, value / 16, (value / 8) % 2, value % 8,
          UintOf(LastOf(opts, CONTENT_FORMAT)), UintOf(LastOf(opts, SIZE1)), payload)
  }

  /** Nothing, or a marker and a payload that is not empty. */
  predicate PayloadOk(tail: seq<byte>) {
    tail == [] || (tail[0] == MARKER && |tail| > 1)
  }

  function PayloadOf(tail: seq<byte>): seq<byte> {
    if tail == [] then [] else tail[1..]
  }

  /** The request of a packet whose options and tail have been read. */
  function ParseWith(p: seq<byte>, options: Option<(seq<Opt>, seq<byte>)>): Result<Block>
    requires |p| >= 4 && p[0] % 16 <= 8 && |p| >= 4 + p[0] % 16
  {
    if options.None? || !AllUsable(options.value.0) || LastOf(options.value.0, BLOCK1).None?
       || !PayloadOk(options.value.1) then
      Err(Format)
    else
      Ok(BlockOf((p[0] / 16) % 4, p[1], TwoBytes(p[2], p[3]), p[4..4 + p[0] % 16], options.value.0,
                 PayloadOf(options.value.1)))
  }

  function Parse(p: seq<byte>): Result<Block> {
    if |p| < 4 || p[0] / 64 != 1 || p[0] % 16 > 8 || |p| < 4 + p[0] % 16 then Err(Format)
    else
      ParseWith(p, ReadOptions(p[4 + p[0] % 16..], 0))
  }

  // ----- writing -----

  function MinLength(v: u32): nat {
    if v == 0 then 0 else if v <= 0xff then 1 else if v <= 0xffff then 2 else if v <= 0xff_ffff then 3 else 4
  }

  function MinBytes(v: u32): (s: seq<byte>)
    ensures |s| <= 4
  {
    BigEndian(v, MinLength(v))
  }

  function AppendOption(out: seq<byte>, capacity: nat, delta: nat, value: seq<byte>): Result<seq<byte>> {
    if delta > LONGEST || |value| > LONGEST then Err(Range)
    else if |out| + |OptionBytes(delta, value)| > capacity then Err(Capacity)
    else Ok(out + OptionBytes(delta, value))
  }

  function SegmentEnd(path: seq<byte>): (n: nat)
    ensures n <= |path|
    ensures path != [] && path[0] != SLASH ==> n > 0
  {
    if path == [] || path[0] == SLASH then 0 else 1 + SegmentEnd(path[1..])
  }

  /** The runs between slashes, in order. */
  function Segments(path: seq<byte>): seq<seq<byte>>
    decreases |path|
  {
    if path == [] then []
    else if path[0] == SLASH then Segments(path[1..])
    else [path[..SegmentEnd(path)]] + Segments(path[SegmentEnd(path)..])
  }

  function AppendSegments(out: seq<byte>, capacity: nat, segments: seq<seq<byte>>, first: bool): Result<seq<byte>>
    decreases |segments|
  {
    if segments == [] then (if first then Err(Format) else Ok(out))
    else
      var next :- AppendOption(out, capacity, if first then URI_PATH else 0, segments[0]);
      AppendSegments(next, capacity, segments[1..], false)
  }

  function BlockValue(block: Block): u32
    requires block.number <= 0xf_ffff && block.szx <= 6
  {
    16 * block.number + (if block.more != 0 then 8 else 0) + block.szx
  }

  predicate Buildable(block: Block, capacity: nat) {
    |block.token| <= 8 && block.szx <= 6 && block.number <= 0xf_ffff && capacity >= 4 + |block.token|
  }

  function AppendPayload(out: seq<byte>, capacity: nat, payload: seq<byte>): Result<seq<byte>> {
    if payload == [] then Ok(out)
    else if |out| >= capacity || |payload| > capacity - |out| - 1 then Err(Capacity)
    else Ok(out + [MARKER] + payload)
  }

  function Build(block: Block, path: seq<byte>, capacity: nat): Result<seq<byte>> {
    if !Buildable(block, capacity) then Err(Argument)
    else
      var named :- AppendSegments(Fixed(block), capacity, Segments(path), true);
      var format :- AppendOption(named, capacity, CONTENT_FORMAT - URI_PATH, MinBytes(block.contentFormat));
      var blocked :- AppendOption(format, capacity, BLOCK1 - CONTENT_FORMAT, MinBytes(BlockValue(block)));
      var sized :- if block.size1 > 0
        then AppendOption(blocked, capacity, SIZE1 - BLOCK1, MinBytes(block.size1))
        else Ok(blocked);
      AppendPayload(sized, capacity, block.payload)
  }
}
