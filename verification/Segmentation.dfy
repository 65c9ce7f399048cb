/** How a representation is cut into blocks: the count-driven loop of src/pipeline.c and the
    offset-driven loop of platform/contiki-ng/adaptive-node.c cut it the same way. */
module Segmentation {
  import opened Bits
  import opened Records

  /** Pieces of the given size, the last one possibly shorter. */
  function Chunks(s: seq<byte>, size: nat): (pieces: seq<seq<byte>>)
    requires size > 0
    decreases |s|
  {
    if s == [] then [] else if |s| <= size then [s] else [s[..size]] + Chunks(s[size..], size)
  }

  function Flatten(pieces: seq<seq<byte>>): seq<byte>
    decreases |pieces|
  {
    if pieces == [] then [] else Flatten(pieces[..|pieces| - 1]) + pieces[|pieces| - 1]
  }

  /** The number of blocks the pipeline announces before it starts. */
  function BlockCount(n: nat, size: nat): nat
    requires size > 0
  {
    (n + size - 1) / size
  }

  lemma CountStep(n: nat, size: nat)
    requires size > 0
    ensures n == 0 ==> BlockCount(n, size) == 0
    ensures 0 < n <= size ==> BlockCount(n, size) == 1
    ensures n > size ==> BlockCount(n, size) == 1 + BlockCount(n - size, size)
  {
    if n > size {
      var q, r := (n - 1) / size, (n - 1) % size;
      assert n - 1 == size * q + r;
      Quotient(n - size + size - 1, size, q, r);
      Quotient(n + size - 1, size, q + 1, r);
    } else if n > 0 {
      Quotient(n + size - 1, size, 1, n - 1);
    } else {
      Quotient(size - 1, size, 0, size - 1);
    }
  }

  lemma Quotient(v: nat, d: nat, q: nat, r: nat)
    requires d > 0 && r < d && v == d * q + r
    ensures v / d == q
  {
    var q', r' := v / d, v % d;
    assert d * (q - q') == r' - r;
    if q > q' {
      ProductAtLeast(d, q - q');
    } else if q < q' {
      ProductAtLeast(d, q' - q);
    }
  }

  lemma {:induction false} FlattenCons(first: seq<byte>, rest: seq<seq<byte>>)
    ensures Flatten([first] + rest) == first + Flatten(rest)
    decreases |rest|
  {
    var all := [first] + rest;
    if rest == [] {
      assert all[..0] == [] && Flatten(all) == [] + first;
    } else {
      var n := |rest| - 1;
      FlattenCons(first, rest[..n]);
      assert all[..n + 1] == [first] + rest[..n] && all[n + 1] == rest[n];
      assert Flatten(all) == Flatten(all[..n + 1]) + all[n + 1];
      assert Flatten(rest) == Flatten(rest[..n]) + rest[n];
      hide Flatten;
    }
  }

  /** For every length and block size: the announced count is the number of pieces, no piece is
      empty, every piece but the last is full, and the pieces together are the input. */
  lemma {:induction false} ChunksPartition(s: seq<byte>, size: nat)
    requires size > 0
    ensures |Chunks(s, size)| == BlockCount(|s|, size) <= |s|
    ensures Flatten(Chunks(s, size)) == s
    ensures forall b :: 0 <= b < |Chunks(s, size)| ==> 0 < |Chunks(s, size)[b]| <= size
    ensures forall b :: 0 <= b < |Chunks(s, size)| - 1 ==> |Chunks(s, size)[b]| == size
    decreases |s|
  {
    CountStep(|s|, size);
    if s == [] {
    } else if |s| <= size {
      FlattenCons(s, []);
    } else {
      ChunksPartition(s[size..], size);
      FlattenCons(s[..size], Chunks(s[size..], size));
      assert s == s[..size] + s[size..];
    }
  }

  function ProtectedTotal(pieces: seq<seq<byte>>): nat {
    if pieces == [] then 0 else |pieces[0]| + OVERHEAD + ProtectedTotal(pieces[1..])
  }

  /** The records add up to the size announced in the Size1 option. */
  lemma {:induction false} ProtectedTotalIsSize1(s: seq<byte>, size: nat)
    requires size > 0
    ensures ProtectedTotal(Chunks(s, size)) == |s| + BlockCount(|s|, size) * OVERHEAD
    decreases |s|
  {
    CountStep(|s|, size);
    if |s| <= size {
    } else {
      ProtectedTotalIsSize1(s[size..], size);
      assert Chunks(s, size)[1..] == Chunks(s[size..], size);
    }
  }

  // ----- the two loops -----

  /** The pipeline's loop: a fixed number of turns, the flag from the block number. */
  method CountDriven(representation: seq<byte>, capacity: nat) returns (pieces: seq<seq<byte>>, flags: seq<bool>)
    requires capacity > 0
    ensures pieces == Chunks(representation, capacity)
    ensures flags == MoreFlags(|pieces|)
  {
    hide Chunks, BlockCount, Flatten, MoreFlags;
    pieces, flags := [], [];
    var offset: nat := 0;
    var blockCount := BlockCount(|representation|, capacity);
    assert representation[0..] == representation;
    ghost var all := Chunks(representation, capacity);
    ChunksPartition(representation, capacity);
    for blockNumber := 0 to blockCount
      invariant offset <= |representation| && |pieces| == blockNumber == |flags|
      invariant all == pieces + Chunks(representation[offset..], capacity)
      invariant blockCount == blockNumber + BlockCount(|representation| - offset, capacity)
      invariant flags == MoreFlags(blockCount)[..blockNumber]
    {
      var remaining := |representation| - offset;
      var plaintextLength := if remaining < capacity then remaining else capacity;
      ghost var rest := representation[offset..];
      CountStep(remaining, capacity);
      CountStep(remaining - plaintextLength, capacity);
      ChunkStep(rest, capacity);
      SliceTwice(representation, offset, plaintextLength);
      AppendCons(pieces, representation[offset..offset + plaintextLength],
                 Chunks(representation[offset + plaintextLength..], capacity));
      FlagStep(blockCount, blockNumber);
      pieces := pieces + [representation[offset..offset + plaintextLength]];
      flags := flags + [blockNumber + 1 < blockCount];
      offset := offset + plaintextLength;
    }
    CountStep(|representation| - offset, capacity);
    ChunkStep(representation[offset..], capacity);
  }

  /** The node's loop: until the offset reaches the end, the flag from the offset. */
  method OffsetDriven(representation: seq<byte>, capacity: nat) returns (pieces: seq<seq<byte>>, flags: seq<bool>)
    requires capacity > 0
    ensures pieces == Chunks(representation, capacity)
    ensures flags == MoreFlags(|pieces|)
  {
    hide Chunks, MoreFlags;
    pieces, flags := [], [];
    var offset: nat := 0;
    assert representation[0..] == representation;
    ghost var all := Chunks(representation, capacity);
    while offset < |representation|
      invariant offset <= |representation| && |flags| == |pieces|
      invariant all == pieces + Chunks(representation[offset..], capacity)
      invariant flags == MoreFlags(|all|)[..|pieces|]
      decreases |representation| - offset
    {
      var remaining := |representation| - offset;
      var plaintextLength := if remaining < capacity then remaining else capacity;
      var more := offset + plaintextLength < |representation|;
      ghost var rest := representation[offset..];
      ChunkStep(rest, capacity);
      SliceTwice(representation, offset, plaintextLength);
      ChunkStep(representation[offset + plaintextLength..], capacity);
      AppendCons(pieces, representation[offset..offset + plaintextLength],
                 Chunks(representation[offset + plaintextLength..], capacity));
      FlagStep(|all|, |pieces|);
      pieces := pieces + [representation[offset..offset + plaintextLength]];
      flags := flags + [more];
      offset := offset + plaintextLength;
    }
    ChunkStep(representation[offset..], capacity);
  }

  /** True for every block but the last. */
  function MoreFlags(n: nat): (f: seq<bool>)
    ensures |f| == n
  {
    seq(n, b => b + 1 < n)
  }

  lemma AppendCons<T>(before: seq<T>, next: T, rest: seq<T>)
    ensures before + ([next] + rest) == before + [next] + rest
  {
  }

  lemma FlagStep(n: nat, b: nat)
    requires b < n
    ensures MoreFlags(n)[..b + 1] == MoreFlags(n)[..b] + [b + 1 < n]
  {
  }

  lemma SliceTwice(s: seq<byte>, offset: nat, n: nat)
    requires offset + n <= |s|
    ensures s[offset..][..n] == s[offset..offset + n] && s[offset..][n..] == s[offset + n..]
  {
  }

  lemma ChunkStep(s: seq<byte>, size: nat)
    requires size > 0
    ensures s == [] <==> Chunks(s, size) == []
    ensures s != [] ==> var n := if |s| < size then |s| else size;
      Chunks(s, size) == [s[..n]] + Chunks(s[n..], size)
  {
    if s != [] && |s| <= size {
      assert s[|s|..] == [] && s[..|s|] == s;
    }
  }
}
