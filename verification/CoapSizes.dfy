/** How long a written request can get: with the limits of the pipeline every packet fits its
    buffer, so a request is refused exactly when its path names nothing. */
module CoapSizes {
  import opened Bits
  import opened Results
  import opened Coap
  import opened CoapGrammar

  const MAX_PATH: nat := 63
  const MAX_PACKET: nat := 1152
  const MAX_RECORD: nat := 1024

  function ExtensionLength(v: nat): nat {
    if v < 13 then 0 else if v < 269 then 1 else 2
  }

  lemma OptionLength(delta: nat, value: seq<byte>)
    requires delta <= LONGEST && |value| <= LONGEST
    ensures |OptionBytes(delta, value)| == 1 + ExtensionLength(delta) + ExtensionLength(|value|) + |value|
  {
  }

  /** Bytes that the Uri-Path options take. */
  function PathCost(segments: seq<seq<byte>>): nat {
    if segments == [] then 0
    else 1 + ExtensionLength(|segments[0]|) + |segments[0]| + PathCost(segments[1..])
  }

  /** A path of n bytes costs at most n + 1 bytes, and one more for every 13 of them. */
  lemma {:induction false} PathCostBound(path: seq<byte>)
    requires |path| <= MAX_PATH
    ensures 13 * PathCost(Segments(path)) <= 14 * |path| + 13
    ensures forall i :: 0 <= i < |Segments(path)| ==> |Segments(path)[i]| <= MAX_PATH
    decreases |path|
  {
    if path == [] {
    } else if path[0] == SLASH {
      PathCostBound(path[1..]);
    } else {
      var n := SegmentEnd(path);
      SplitAtSegment(path);
      if n < |path| {
        PathCostBound(path[n + 1..]);
        assert path[n..][1..] == path[n + 1..];
      } else {
        assert Segments(path[n..]) == [];
      }
      var segments := Segments(path);
      assert segments[1..] == Segments(path[n..]);
    }
  }

  lemma {:induction false} PathFits(out: seq<byte>, capacity: nat, segments: seq<seq<byte>>, first: bool)
    requires segments != [] || !first
    requires forall i :: 0 <= i < |segments| ==> |segments[i]| <= MAX_PATH
    requires |out| + PathCost(segments) <= capacity
    ensures var r := AppendSegments(out, capacity, segments, first);
      r.Ok? && |r.value| == |out| + PathCost(segments)
    decreases |segments|
  {
    hide OptionBytes;
    if segments == [] {
    } else {
      OptionLength(if first then URI_PATH else 0, segments[0]);
      var next := out + OptionBytes(if first then URI_PATH else 0, segments[0]);
      assert forall i :: 0 <= i < |segments[1..]| ==> segments[1..][i] == segments[i + 1];
      PathFits(next, capacity, segments[1..], false);
    }
  }

  /** What the pipeline asks for: four-byte token, block number, size exponent and record
      within their limits, and the packet buffer of the pipeline. */
  predicate PipelineBlock(block: Block) {
    |block.token| == 4 && block.szx <= 6 && block.number <= 0xf_ffff && |block.payload| <= MAX_RECORD
  }

  /** Within those limits, no capacity test can fail: the request is built, in at most 1118
      bytes, exactly when the path has a segment; otherwise the error is a format error. */
  lemma PipelineBlockFits(block: Block, path: seq<byte>)
    requires PipelineBlock(block) && |path| <= MAX_PATH
    ensures var r := Build(block, path, MAX_PACKET);
      if Segments(path) == [] then r == Err(Format) else r.Ok? && |r.value| <= 1118
  {
    hide OptionBytes, Segments, AppendSegments, PathCost, MinBytes;
    PathCostBound(path);
    var segments := Segments(path);
    if segments == [] {
      NoSegments(Fixed(block));
    } else {
      PathFits(Fixed(block), MAX_PACKET, segments, true);
      OptionLength(CONTENT_FORMAT - URI_PATH, MinBytes(block.contentFormat));
      OptionLength(BLOCK1 - CONTENT_FORMAT, MinBytes(BlockValue(block)));
      OptionLength(SIZE1 - BLOCK1, MinBytes(block.size1));
    }
  }

  lemma NoSegments(out: seq<byte>)
    ensures AppendSegments(out, MAX_PACKET, [], true) == Err(Format)
  {
  }

  /** A path has a segment exactly when some byte of it is not a slash. */
  lemma {:induction false} SegmentsExist(path: seq<byte>)
    ensures Segments(path) != [] <==> exists i :: 0 <= i < |path| && path[i] != SLASH
    decreases |path|
  {
    if path == [] || path[0] != SLASH {
    } else {
      SegmentsExist(path[1..]);
      assert forall i :: 0 < i < |path| ==> path[i] == path[1..][i - 1];
    }
  }
}
