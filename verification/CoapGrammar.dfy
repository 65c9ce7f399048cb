/** The parser accepts exactly the option lists of the grammar, reads every written request
    back, and the writer never emits the payload marker where an option could start. */
module CoapGrammar {
  import opened Bits
  import opened Results
  import opened Coap

  // ----- one option -----

  lemma NibbleRoundTrip(v: nat, t: seq<byte>)
    requires v <= LONGEST
    ensures ReadExtended(Nibble(v), Extension(v) + t) == Some((v, |Extension(v)|))
  {
    if v >= 269 {
      assert BigEndian(v - 269, 2) == BigEndian((v - 269) / 256, 1) + [(v - 269) % 256];
      assert BigEndian((v - 269) / 256, 1) == BigEndian((v - 269) / 256 / 256, 0) + [(v - 269) / 256 % 256];
    }
  }

  lemma NibbleSound(nibble: byte, s: seq<byte>)
    requires nibble < 16 && ReadExtended(nibble, s).Some?
    ensures var (v, used) := ReadExtended(nibble, s).value;
      v <= LONGEST && nibble == Nibble(v) && s[..used] == Extension(v)
  {
    if nibble == 14 {
      var w := TwoBytes(s[0], s[1]);
      assert BigEndian(w, 2) == BigEndian(w / 256, 1) + [w % 256];
      assert BigEndian(w / 256, 1) == BigEndian(w / 256 / 256, 0) + [w / 256 % 256];
      assert s[..2] == [s[0], s[1]];
    }
  }

  /** No option header is the payload marker: nibble 15 is never written. */
  lemma HeaderIsNotMarker(delta: nat, length: nat)
    requires delta <= LONGEST && length <= LONGEST
    ensures OptionHeader(delta, length) != MARKER
    ensures OptionHeader(delta, length) / 16 == Nibble(delta)
    ensures OptionHeader(delta, length) % 16 == Nibble(length)
  {
  }

  lemma OptionRoundTrip(delta: nat, value: seq<byte>, t: seq<byte>)
    requires delta <= LONGEST && |value| <= LONGEST
    ensures ReadOption(OptionBytes(delta, value) + t) == Some((delta, value, |OptionBytes(delta, value)|))
  {
    hide ReadExtended, Nibble, Extension;
    var s := OptionBytes(delta, value) + t;
    var d, l := Extension(delta), Extension(|value|);
    HeaderIsNotMarker(delta, |value|);
    assert s[1..] == d + (l + value + t);
    NibbleRoundTrip(delta, l + value + t);
    assert s[1 + |d|..] == l + (value + t);
    NibbleRoundTrip(|value|, value + t);
    assert s[1 + |d| + |l|..1 + |d| + |l| + |value|] == value;
  }

  lemma OptionSound(s: seq<byte>)
    requires s != [] && ReadOption(s).Some?
    ensures var (delta, value, used) := ReadOption(s).value;
      delta <= LONGEST && |value| <= LONGEST && s[..used] == OptionBytes(delta, value)
  {
    hide ReadExtended, Nibble, Extension;
    var (delta, value, used) := ReadOption(s).value;
    NibbleSound(s[0] / 16, s[1..]);
    var d := |Extension(delta)|;
    assert ReadExtended(s[0] / 16, s[1..]).value.1 == d;
    NibbleSound(s[0] % 16, s[1 + d..]);
    var l := |Extension(|value|)|;
    assert s[1..][..d] == s[1..1 + d] == Extension(delta);
    assert s[1 + d..][..l] == s[1 + d..1 + d + l] == Extension(|value|);
    assert s[..used] == [s[0]] + s[1..1 + d] + s[1 + d..1 + d + l] + s[1 + d + l..used];
  }

  // ----- option lists -----

  lemma ReadStep(s: seq<byte>, previous: nat)
    ensures EndsOptions(s) ==> ReadOptions(s, previous) == Some(([], s))
    ensures !EndsOptions(s) && ReadOption(s).Some? && previous <= MAX_OPTION_NUMBER - ReadOption(s).value.0 ==>
      var (delta, value, used) := ReadOption(s).value;
      var rest := ReadOptions(s[used..], previous + delta);
      ReadOptions(s, previous)
        == if rest.None? then None else Some(([Opt(previous + delta, value)] + rest.value.0, rest.value.1))
    ensures !EndsOptions(s) && (ReadOption(s).None? || previous > MAX_OPTION_NUMBER - ReadOption(s).value.0) ==>
      ReadOptions(s, previous) == None
  {
    hide ReadOption;
  }

  /** Every well-formed list is read back, whatever ends it. */
  lemma {:induction false} ListRoundTrip(opts: seq<Opt>, previous: nat, tail: seq<byte>)
    requires WellFormed(opts, previous) && EndsOptions(tail)
    ensures ReadOptions(Wire(opts, previous) + tail, previous) == Some((opts, tail))
    decreases |opts|
  {
    hide ReadOption, OptionBytes, ReadOptions;
    var s := Wire(opts, previous) + tail;
    if opts == [] {
      assert s == tail;
      ReadStep(s, previous);
    } else {
      var o, delta := opts[0], opts[0].number - previous;
      var first, rest := OptionBytes(delta, o.value), Wire(opts[1..], o.number);
      OptionBeforeRest(delta, o.value, rest + tail, s);
      ReadStep(s, previous);
      ListRoundTrip(opts[1..], o.number, tail);
      assert [o] + opts[1..] == opts;
    }
  }

  lemma OptionBeforeRest(delta: nat, value: seq<byte>, rest: seq<byte>, s: seq<byte>)
    requires delta <= LONGEST && |value| <= LONGEST && s == OptionBytes(delta, value) + rest
    ensures !EndsOptions(s)
    ensures ReadOption(s) == Some((delta, value, |OptionBytes(delta, value)|))
    ensures s[|OptionBytes(delta, value)|..] == rest
  {
    hide ReadOption, OptionBytes;
    OptionRoundTrip(delta, value, rest);
    FirstIsHeader(delta, value);
  }

  lemma FirstIsHeader(delta: nat, value: seq<byte>)
    requires delta <= LONGEST && |value| <= LONGEST
    ensures OptionBytes(delta, value)[0] != MARKER
  {
    HeaderIsNotMarker(delta, |value|);
  }

  /** Every list that is read is well formed, and is what the bytes say. */
  lemma {:induction false} ListSound(s: seq<byte>, previous: nat)
    requires ReadOptions(s, previous).Some?
    ensures var (opts, tail) := ReadOptions(s, previous).value;
      EndsOptions(tail) && WellFormed(opts, previous) && s == Wire(opts, previous) + tail
    decreases |s|
  {
    hide ReadOption, OptionBytes, ReadOptions;
    ReadStep(s, previous);
    if EndsOptions(s) {
    } else {
      OptionSound(s);
      var (delta, value, used) := ReadOption(s).value;
      ListSound(s[used..], previous + delta);
      var (rest, tail) := ReadOptions(s[used..], previous + delta).value;
      assert s == s[..used] + s[used..];
      WireCons(Opt(previous + delta, value), rest, previous, tail, s);
    }
  }

  lemma WireCons(o: Opt, rest: seq<Opt>, previous: nat, tail: seq<byte>, s: seq<byte>)
    requires previous <= o.number <= MAX_OPTION_NUMBER && o.number - previous <= LONGEST
    requires |o.value| <= LONGEST && WellFormed(rest, o.number)
    requires s == OptionBytes(o.number - previous, o.value) + (Wire(rest, o.number) + tail)
    ensures WellFormed([o] + rest, previous) && s == Wire([o] + rest, previous) + tail
  {
    hide OptionBytes;
    assert ([o] + rest)[1..] == rest;
  }

  /** A list of options with the text around them: the declarative form of a request. */
  ghost predicate Describes(p: seq<byte>, opts: seq<Opt>, tail: seq<byte>, block: Block) {
    |block.token| <= 8 && block.typ < 4
    && WellFormed(opts, 0) && AllUsable(opts) && LastOf(opts, BLOCK1).Some? && PayloadOk(tail)
    && p == Fixed(block) + Wire(opts, 0) + tail
    && block == BlockOf(block.typ, block.code, block.messageId, block.token, opts, PayloadOf(tail))
  }

  lemma FixedFields(block: Block, rest: seq<byte>)
    requires |block.token| <= 8 && block.typ < 4
    ensures var p, n := Fixed(block) + rest, 4 + |block.token|;
      |p| >= n && p[0] / 64 == 1 && p[0] % 16 == |block.token| && (p[0] / 16) % 4 == block.typ
      && p[1] == block.code && TwoBytes(p[2], p[3]) == block.messageId && p[4..n] == block.token && p[n..] == rest
  {
    hide BigEndian;
    var w := block.messageId;
    BigEndianPair(w);
    assert Fixed(block)[..4] == [64 + 16 * block.typ + |block.token|, block.code, w / 256, w % 256];
  }

  /** The parser accepts every request of the grammar, with exactly its fields: the last
      occurrence of each option, and the payload after the marker. */
  lemma ParseComplete(p: seq<byte>, opts: seq<Opt>, tail: seq<byte>, block: Block)
    requires Describes(p, opts, tail, block)
    ensures Parse(p) == Ok(block)
    ensures ReadOptions(p[4 + |block.token|..], 0) == Some((opts, tail))
  {
    hide Fixed, Wire, ReadOptions, BlockOf, WellFormed;
    assert p == Fixed(block) + (Wire(opts, 0) + tail);
    FixedFields(block, Wire(opts, 0) + tail);
    ListRoundTrip(opts, 0, tail);
  }

  /** The parser accepts nothing else. */
  lemma ParseSound(p: seq<byte>) returns (opts: seq<Opt>, tail: seq<byte>)
    requires Parse(p).Ok?
    ensures Describes(p, opts, tail, Parse(p).value)
  {
    hide Wire, ReadOptions, WellFormed, AllUsable, LastOf, PayloadOk, PayloadOf, BlockOf, Fixed, Parse;
    opts, tail := ParsedParts(p);
    var start, block := 4 + p[0] % 16, Parse(p).value;
    ListSound(p[start..], 0);
    FixedRestored(p, block);
    assert p == p[..start] + p[start..];
    assert p == Fixed(block) + (Wire(opts, 0) + tail) == Fixed(block) + Wire(opts, 0) + tail;
  }

  /** The tests a parsed packet has passed. */
  lemma ParsedParts(p: seq<byte>) returns (opts: seq<Opt>, tail: seq<byte>)
    requires Parse(p).Ok?
    ensures |p| >= 4 && p[0] / 64 == 1 && p[0] % 16 <= 8 && |p| >= 4 + p[0] % 16
    ensures ReadOptions(p[4 + p[0] % 16..], 0) == Some((opts, tail))
    ensures AllUsable(opts) && LastOf(opts, BLOCK1).Some? && PayloadOk(tail)
    ensures var block := Parse(p).value;
      block.typ == (p[0] / 16) % 4 && block.code == p[1] && block.messageId == TwoBytes(p[2], p[3])
      && block.token == p[4..4 + p[0] % 16]
      && block == BlockOf(block.typ, block.code, block.messageId, block.token, opts, PayloadOf(tail))
  {
    hide ReadOptions, AllUsable, LastOf, PayloadOk, PayloadOf, UintOf, FromBigEndian;
    var read := ReadOptions(p[4 + p[0] % 16..], 0);
    opts, tail := read.value.0, read.value.1;
  }

  lemma FixedRestored(p: seq<byte>, block: Block)
    requires |p| >= 4 && p[0] / 64 == 1 && p[0] % 16 <= 8 && |p| >= 4 + p[0] % 16
    requires block.typ == (p[0] / 16) % 4 && block.code == p[1] && block.messageId == TwoBytes(p[2], p[3])
    requires block.token == p[4..4 + p[0] % 16]
    ensures Fixed(block) == p[..4 + p[0] % 16]
  {
    hide BigEndian, FromBigEndian, Pow2;
    TwoBytesBack(p[2], p[3]);
    FirstByte(p[0]);
    var n := 4 + p[0] % 16;
    assert p[..n] == [p[0], p[1]] + [p[2], p[3]] + p[4..n];
  }

  lemma TwoBytesBack(high: byte, low: byte)
    ensures BigEndian(TwoBytes(high, low), 2) == [high, low]
  {
    BigEndianPair(TwoBytes(high, low));
  }

  lemma FirstByte(b: byte)
    requires b / 64 == 1 && b % 16 <= 8
    ensures 64 + 16 * (b / 16 % 4) + b % 16 == b
  {
  }

  /** Both directions: a packet parses to a block exactly when the grammar describes it. */
  lemma ParseIsGrammar(p: seq<byte>, block: Block)
    ensures Parse(p) == Ok(block) <==> exists opts, tail :: Describes(p, opts, tail, block)
  {
    if Parse(p) == Ok(block) {
      var opts, tail := ParseSound(p);
    }
    if exists opts, tail :: Describes(p, opts, tail, block) {
      var opts, tail :| Describes(p, opts, tail, block);
      ParseComplete(p, opts, tail, block);
    }
  }

  // ----- the writer -----

  lemma MinBytesValue(v: u32)
    ensures FromBigEndian(MinBytes(v)) == v
  {
    Pow2Values();
    BigEndianInverse(v, MinLength(v));
  }

  function PathOptions(segments: seq<seq<byte>>): (opts: seq<Opt>)
    ensures |opts| == |segments|
  {
    seq(|segments|, i requires 0 <= i < |segments| => Opt(URI_PATH, segments[i]))
  }

  function FieldOptions(block: Block): seq<Opt>
    requires block.number <= 0xf_ffff && block.szx <= 6
  {
    [Opt(CONTENT_FORMAT, MinBytes(block.contentFormat)), Opt(BLOCK1, MinBytes(BlockValue(block)))]
    + if block.size1 > 0 then [Opt(SIZE1, MinBytes(block.size1))] else []
  }

  function Tail(payload: seq<byte>): seq<byte> {
    if payload == [] then [] else [MARKER] + payload
  }

  /** What the receiver reads from a written block: the type modulo four, the flag as 0 or 1. */
  function Received(block: Block): Block {
    block.(typ := block.typ % 4, more := if block.more != 0 then 1 else 0)
  }

  lemma {:induction false} SegmentsWire(out: seq<byte>, capacity: nat, segments: seq<seq<byte>>, first: bool,
                                        fields: seq<Opt>)
    requires AppendSegments(out, capacity, segments, first).Ok?
    requires WellFormed(fields, URI_PATH)
    ensures first ==> segments != []
    ensures var opts := PathOptions(segments) + fields;
      var previous := if first then 0 else URI_PATH;
      WellFormed(opts, previous)
      && out + Wire(opts, previous) == AppendSegments(out, capacity, segments, first).value + Wire(fields, URI_PATH)
    decreases |segments|
  {
    hide OptionBytes;
    var opts := PathOptions(segments) + fields;
    if segments == [] {
      assert opts == fields;
    } else {
      var previous := if first then 0 else URI_PATH;
      var next := AppendOption(out, capacity, URI_PATH - previous, segments[0]).value;
      SegmentsWire(next, capacity, segments[1..], false, fields);
      assert opts[1..] == PathOptions(segments[1..]) + fields;
      assert opts[0] == Opt(URI_PATH, segments[0]);
    }
  }

  lemma FieldsWire(block: Block)
    requires block.number <= 0xf_ffff && block.szx <= 6
    ensures var fields := FieldOptions(block);
      var cf := OptionBytes(CONTENT_FORMAT - URI_PATH, MinBytes(block.contentFormat));
      var b1 := OptionBytes(BLOCK1 - CONTENT_FORMAT, MinBytes(BlockValue(block)));
      var s1 := if block.size1 > 0 then OptionBytes(SIZE1 - BLOCK1, MinBytes(block.size1)) else [];
      WellFormed(fields, URI_PATH) && Wire(fields, URI_PATH) == cf + b1 + s1
  {
    hide OptionBytes, MinBytes, BlockValue;
    var fields := FieldOptions(block);
    var last := fields[2..];
    assert WellFormed(last, BLOCK1);
    assert fields[1..][1..] == last;
    assert Wire(last, BLOCK1) == if block.size1 > 0 then OptionBytes(SIZE1 - BLOCK1, MinBytes(block.size1)) else [];
    assert WellFormed(fields[1..], CONTENT_FORMAT);
  }

  lemma {:induction false} LastOfPath(segments: seq<seq<byte>>, number: nat)
    requires number != URI_PATH
    ensures LastOf(PathOptions(segments), number) == None
    decreases |segments|
  {
    if segments == [] {
    } else {
      var n := |segments| - 1;
      LastOfPath(segments[..n], number);
      assert PathOptions(segments)[..n] == PathOptions(segments[..n]);
    }
  }

  lemma WrittenFields(segments: seq<seq<byte>>, block: Block)
    requires block.number <= 0xf_ffff && block.szx <= 6
    ensures var opts := PathOptions(segments) + FieldOptions(block);
      LastOf(opts, CONTENT_FORMAT) == Some(MinBytes(block.contentFormat))
      && LastOf(opts, BLOCK1) == Some(MinBytes(BlockValue(block)))
      && LastOf(opts, SIZE1) == if block.size1 > 0 then Some(MinBytes(block.size1)) else None
  {
    hide MinBytes, BlockValue, PathOptions;
    var path, cf := PathOptions(segments), Opt(CONTENT_FORMAT, MinBytes(block.contentFormat));
    var b1 := Opt(BLOCK1, MinBytes(BlockValue(block)));
    LastOfPath(segments, CONTENT_FORMAT);
    LastOfPath(segments, BLOCK1);
    LastOfPath(segments, SIZE1);
    var one, two := path + [cf], path + [cf, b1];
    assert one[..|path|] == path && two[..|path| + 1] == one;
    assert LastOf(one, CONTENT_FORMAT) == Some(cf.value) == LastOf(two, CONTENT_FORMAT);
    assert LastOf(one, SIZE1) == None == LastOf(two, SIZE1);
    if block.size1 > 0 {
      var three := two + [Opt(SIZE1, MinBytes(block.size1))];
      assert path + FieldOptions(block) == three && three[..|path| + 2] == two;
    } else {
      assert path + FieldOptions(block) == two;
    }
  }

  lemma BlockValueFields(block: Block)
    requires block.number <= 0xf_ffff && block.szx <= 6
    ensures var v := BlockValue(block);
      v / 16 == block.number && v % 8 == block.szx && (v / 8) % 2 == if block.more != 0 then 1 else 0
  {
    SplitValue(block.number, if block.more != 0 then 1 else 0, block.szx);
  }

  lemma SplitValue(n: nat, m: nat, s: nat)
    requires m <= 1 && s < 8
    ensures var v := 16 * n + 8 * m + s;
      v / 16 == n && v % 8 == s && (v / 8) % 2 == m
  {
    var v, w := 16 * n + 8 * m + s, 2 * n + m;
    assert v / 8 == w && v % 8 == s by { assert v == 8 * w + s; }
    assert w / 2 == n && w % 2 == m;
    assert v / 16 == v / 8 / 2;
  }

  /** A written request is described by the non-empty path segments in order, the content
      format, the block option and, when it is not zero, the size. */
  lemma BuildDescribed(block: Block, path: seq<byte>, capacity: nat)
    requires Build(block, path, capacity).Ok?
    ensures Buildable(block, capacity) && Segments(path) != []
    ensures Describes(Build(block, path, capacity).value, PathOptions(Segments(path)) + FieldOptions(block),
                      Tail(block.payload), Received(block))
  {
    hide OptionBytes, Segments, AppendSegments, WellFormed, Wire, LastOf, MinBytes, BlockValue, FieldOptions;
    var segments, fields := Segments(path), FieldOptions(block);
    var opts := PathOptions(segments) + fields;
    FieldsWire(block);
    SegmentsWire(Fixed(block), capacity, segments, true, fields);
    WrittenFields(segments, block);
    WrittenUsable(segments, block);
    BuildBytes(block, path, capacity);
    assert Fixed(Received(block)) == Fixed(block);
    MinBytesValue(block.contentFormat);
    MinBytesValue(BlockValue(block));
    MinBytesValue(block.size1);
    BlockValueFields(block);
  }

  lemma WrittenUsable(segments: seq<seq<byte>>, block: Block)
    requires block.number <= 0xf_ffff && block.szx <= 6
    ensures AllUsable(PathOptions(segments) + FieldOptions(block))
  {
    hide BlockValue;
    MinBytesValue(BlockValue(block));
    BlockValueFields(block);
  }

  lemma BuildBytes(block: Block, path: seq<byte>, capacity: nat)
    requires Build(block, path, capacity).Ok?
    ensures Buildable(block, capacity)
    ensures AppendSegments(Fixed(block), capacity, Segments(path), true).Ok?
    ensures var named := AppendSegments(Fixed(block), capacity, Segments(path), true).value;
      var cf := OptionBytes(CONTENT_FORMAT - URI_PATH, MinBytes(block.contentFormat));
      var b1 := OptionBytes(BLOCK1 - CONTENT_FORMAT, MinBytes(BlockValue(block)));
      var s1 := if block.size1 > 0 then OptionBytes(SIZE1 - BLOCK1, MinBytes(block.size1)) else [];
      Build(block, path, capacity).value == named + (cf + b1 + s1) + Tail(block.payload)
  {
    hide OptionBytes, Segments, AppendSegments, MinBytes, BlockValue;
  }

  /** Reading a written request gives every field back, and its Uri-Path options are exactly
      the non-empty segments of the path, in order. */
  lemma BuildParse(block: Block, path: seq<byte>, capacity: nat)
    requires Build(block, path, capacity).Ok?
    ensures var p := Build(block, path, capacity).value;
      Parse(p) == Ok(Received(block))
      && |block.token| <= 8 && |p| >= 4 + |block.token| && block.number <= 0xf_ffff && block.szx <= 6
      && ReadOptions(p[4 + |block.token|..], 0)
         == Some((PathOptions(Segments(path)) + FieldOptions(block), Tail(block.payload)))
  {
    hide Parse, Build, Describes, Segments, FieldOptions;
    BuildDescribed(block, path, capacity);
    var opts := PathOptions(Segments(path)) + FieldOptions(block);
    ParseComplete(Build(block, path, capacity).value, opts, Tail(block.payload), Received(block));
    LongEnough(Build(block, path, capacity).value, opts, Tail(block.payload), Received(block));
  }

  lemma LongEnough(p: seq<byte>, opts: seq<Opt>, tail: seq<byte>, block: Block)
    requires Describes(p, opts, tail, block)
    ensures |p| >= 4 + |block.token|
  {
  }

  // ----- path segments against plain splitting -----

  /** All pieces between slashes, empty ones included. */
  function Split(path: seq<byte>): (pieces: seq<seq<byte>>)
    ensures |pieces| >= 1
  {
    if path == [] then [[]]
    else
      var rest := Split(path[1..]);
      if path[0] == SLASH then [[]] + rest else [[path[0]] + rest[0]] + rest[1..]
  }

  function Join(pieces: seq<seq<byte>>): seq<byte>
    requires |pieces| >= 1
  {
    if |pieces| == 1 then pieces[0] else pieces[0] + [SLASH] + Join(pieces[1..])
  }

  function NonEmpty(pieces: seq<seq<byte>>): seq<seq<byte>> {
    if pieces == [] then []
    else (if pieces[0] == [] then [] else [pieces[0]]) + NonEmpty(pieces[1..])
  }

  lemma {:induction false} JoinSplit(path: seq<byte>)
    ensures Join(Split(path)) == path
    decreases |path|
  {
    if path == [] {
    } else {
      JoinSplit(path[1..]);
      var rest := Split(path[1..]);
      if path[0] == SLASH {
        assert ([[]] + rest)[1..] == rest;
        assert path == [SLASH] + path[1..];
      } else {
        var pieces := [[path[0]] + rest[0]] + rest[1..];
        assert pieces[1..] == rest[1..];
        assert path == [path[0]] + path[1..];
      }
    }
  }

  lemma {:induction false} SplitAtSegment(path: seq<byte>)
    ensures var n := SegmentEnd(path);
      Split(path)[0] == path[..n] && (n < |path| ==> path[n] == SLASH)
      && Split(path)[1..] == if n == |path| then [] else Split(path[n + 1..])
    decreases |path|
  {
    if path == [] {
    } else {
      if path[0] == SLASH {
        assert ([[]] + Split(path[1..]))[1..] == Split(path[1..]);
      } else {
        var n := SegmentEnd(path);
        SplitAtSegment(path[1..]);
        hide SegmentEnd;
        assert path[..n] == [path[0]] + path[1..][..n - 1];
        if n < |path| { assert path[1..][n..] == path[n + 1..]; }
      }
    }
  }

  /** The scanning loop yields the pieces that are not empty, in order. */
  lemma {:induction false} SegmentsAreNonEmptyPieces(path: seq<byte>)
    ensures Segments(path) == NonEmpty(Split(path))
    decreases |path|
  {
    if path == [] {
      assert NonEmpty([[]]) == NonEmpty([[]][1..]);
    } else if path[0] == SLASH {
      SegmentsAreNonEmptyPieces(path[1..]);
      assert ([[]] + Split(path[1..]))[1..] == Split(path[1..]);
    } else {
      var n := SegmentEnd(path);
      SplitAtSegment(path);
      SegmentsAreNonEmptyPieces(path[n..]);
      var pieces := Split(path);
      if n < |path| {
        assert path[n..][0] == SLASH && path[n..][1..] == path[n + 1..];
        assert Split(path[n..]) == [[]] + Split(path[n + 1..]);
        assert ([[]] + Split(path[n + 1..]))[1..] == Split(path[n + 1..]);
        assert NonEmpty(Split(path[n..])) == NonEmpty(Split(path[n + 1..]));
      } else {
        assert path[n..] == [] && Segments(path[n..]) == [] && NonEmpty(pieces[1..]) == [];
      }
    }
  }

  // ----- a request on the wire -----

  lemma {:induction false} NoSlashEnd(path: seq<byte>)
    requires SLASH !in path
    ensures SegmentEnd(path) == |path|
    decreases |path|
  {
    if path == [] {
    } else {
      assert path[0] in path && forall b :: b in path[1..] ==> b in path;
      NoSlashEnd(path[1..]);
    }
  }

  lemma OneSegment(path: seq<byte>)
    requires path != [] && SLASH !in path
    ensures Segments(path) == [path]
  {
    NoSlashEnd(path);
    assert path[0] in path;
    assert path[..|path|] == path && path[|path|..] == [];
    hide SegmentEnd;
  }

  /** Byte by byte, as sections 3 and 5.10 of RFC 7252 and sections 2.2 and 4 of RFC 7959 number
      the fields: a confirmable POST of block 3 of 64 bytes with more to come, to one path
      segment of nine bytes, in content format 42 and of 200 bytes in all. */
  lemma RequestOnWire(path: seq<byte>, payload: seq<byte>, capacity: nat)
    requires |path| == 9 && SLASH !in path && payload != []
    requires Build(Block(0, 2, 0x1234, [0x57, 0x30, 0x30, 0x31], 3, 1, 2, 42, 200, payload), path, capacity).Ok?
    ensures Build(Block(0, 2, 0x1234, [0x57, 0x30, 0x30, 0x31], 3, 1, 2, 42, 200, payload), path, capacity).value
         == [0x44, 0x02, 0x12, 0x34, 0x57, 0x30, 0x30, 0x31] + ([0xb9] + path)
          + ([0x11, 0x2a] + [0xd1, 0x02, 0x3a] + [0xd1, 0x14, 0xc8]) + ([0xff] + payload)
  {
    var block := Block(0, 2, 0x1234, [0x57, 0x30, 0x30, 0x31], 3, 1, 2, 42, 200, payload);
    BuildBytes(block, path, capacity);
    OneSegment(path);
    FixedOnWire(block);
    FieldsOnWire(block);
    PathOnWire(Fixed(block), path, capacity);
    hide Build, Fixed, OptionBytes, MinBytes, BlockValue, AppendSegments, Segments;
  }

  lemma FixedOnWire(block: Block)
    requires block.typ == 0 && block.code == 2 && block.messageId == 0x1234
    requires block.token == [0x57, 0x30, 0x30, 0x31]
    ensures Fixed(block) == [0x44, 0x02, 0x12, 0x34, 0x57, 0x30, 0x30, 0x31]
  {
    BigEndianPair(0x1234);
    hide BigEndian;
  }

  lemma FieldsOnWire(block: Block)
    requires block.contentFormat == 42 && block.size1 == 200
    requires block.number == 3 && block.more == 1 && block.szx == 2
    ensures OptionBytes(CONTENT_FORMAT - URI_PATH, MinBytes(block.contentFormat)) == [0x11, 0x2a]
    ensures OptionBytes(BLOCK1 - CONTENT_FORMAT, MinBytes(BlockValue(block))) == [0xd1, 0x02, 0x3a]
    ensures OptionBytes(SIZE1 - BLOCK1, MinBytes(block.size1)) == [0xd1, 0x14, 0xc8]
  {
    OneByte(42);
    OneByte(0x3a);
    OneByte(200);
    assert BlockValue(block) == 0x3a;
    hide BigEndian, MinBytes, BlockValue;
  }

  lemma OneByte(v: byte)
    requires v > 0
    ensures MinBytes(v) == [v]
  {
    assert BigEndian(v, 1) == BigEndian(v / 256, 0) + [v % 256];
  }

  lemma PathOnWire(out: seq<byte>, path: seq<byte>, capacity: nat)
    requires |path| == 9 && AppendSegments(out, capacity, [path], true).Ok?
    ensures AppendSegments(out, capacity, [path], true).value == out + ([0xb9] + path)
  {
    assert [path][1..] == [];
    assert OptionBytes(URI_PATH, path) == [0xb9] + path;
    hide OptionBytes;
  }

  /** Option i has this number and value, and no later one has the number. */
  predicate IsLast(opts: seq<Opt>, number: nat, value: seq<byte>, i: nat) {
    i < |opts| && opts[i] == Opt(number, value) && forall j :: i < j < |opts| ==> opts[j].number != number
  }

  /** Of repeated options the last one counts, and only that. */
  lemma {:induction false} LastOfMeans(opts: seq<Opt>, number: nat, value: seq<byte>)
    ensures LastOf(opts, number) == Some(value) <==> exists i: nat :: IsLast(opts, number, value, i)
    decreases |opts|
  {
    if opts == [] {
    } else {
      var n := |opts| - 1;
      LastOfMeans(opts[..n], number, value);
      if opts[n].number == number {
        assert opts[n].value == value ==> IsLast(opts, number, value, n);
      } else {
        forall i: nat
          ensures IsLast(opts, number, value, i) <==> IsLast(opts[..n], number, value, i)
        {
        }
      }
    }
  }
}
