/** Writes of a byte string at an offset of a caller's buffer. */
module Buffers {
  import opened Bits

  method Put(output: array<byte>, offset: nat, data: seq<byte>)
    requires offset + |data| <= output.Length
    modifies output
    ensures output[..offset] == old(output[..offset])
    ensures output[offset..offset + |data|] == data
    ensures output[..offset + |data|] == old(output[..offset]) + data
    ensures output[offset + |data|..] == old(output[offset + |data|..])
  {
    forall t | 0 <= t < |data| { output[offset + t] := data[t]; }
  }
}
