/** The transfer protocol as two state machines over one cipher: what a window's packets are,
    and what a receiver does with any packet. */
module Transfer {
  import opened Bits
  import opened Results
  import opened Coap
  import opened CoapSizes
  import opened Records
  import opened Segmentation
  import Aad

  const MAX_REPRESENTATION: nat := 1088
  const CON: byte := 0
  const POST: byte := 2

  // ----- sender -----

  /** Where requests go: URI path and content format. */
  datatype Route = Route(path: seq<byte>, contentFormat: u32)

  /** One window on its way: its identity, its representation and the block size exponent. */
  datatype Window = Window(id: u32, representation: seq<byte>, szx: byte)

  datatype Counters = Counters(message: u16, next: u64)

  /** A packet handed to the transport, with the block and the sequence number it carries. */
  datatype Sent = Sent(id: u32, block: nat, sequence: u64, packet: seq<byte>)

  /** One run of the sending loop: how it ended, the counters afterwards, the packets handed to
      the transport and the number of records sealed. */
  datatype Trace = Trace(status: Status, counters: Counters, sent: seq<Sent>, seals: nat)

  predicate Sendable(w: Window) {
    BlockSize(w.szx) > OVERHEAD && BlockSize(w.szx) <= MAX_RECORD && |w.representation| <= MAX_REPRESENTATION
  }

  function PieceSize(w: Window): (n: nat)
    requires Sendable(w)
    ensures n > 0
  {
    BlockSize(w.szx) - OVERHEAD
  }

  function Pieces(w: Window): seq<seq<byte>>
    requires Sendable(w)
  {
    Chunks(w.representation, PieceSize(w))
  }

  function Size1Of(w: Window): nat
    requires Sendable(w)
  {
    |w.representation| + BlockCount(|w.representation|, PieceSize(w)) * OVERHEAD
  }

  function NextMessage(m: u16): u16 {
    if m == 0xffff then 0 else m + 1
  }

  /** The block header of the pipeline, before its record is attached. */
  function HeaderBlock(route: Route, w: Window, message: u16, b: u32, more: bool, size1: u32): Block {
    Block(CON, POST, message, BigEndian(w.id, 4), b, if more then 1 else 0, w.szx, route.contentFormat, size1, [])
  }

  /** The sending loop from block b on: rest is what is still to be sent, count the announced
      number of blocks, and transport says what each send call returns. */
  function SendFrom(c: Cipher, route: Route, w: Window, size1: u32, rest: seq<byte>, b: nat, count: nat,
                    counters: Counters, transport: nat -> Option<Error>): Trace
    requires Sendable(w) && b <= count <= MAX_REPRESENTATION
    decreases count - b
  {
    if b == count then Trace(Success, counters, [], 0)
    else
      var n := if |rest| < PieceSize(w) then |rest| else PieceSize(w);
      var more := b + 1 < count;
      var block := HeaderBlock(route, w, counters.message, b, more, size1);
      var message := NextMessage(counters.message);
      var (next, sealed) := Seal(c, counters.next, Aad.Bytes(block), rest[..n], MAX_RECORD);
      if sealed.Err? then Trace(Failure(sealed.error), Counters(message, next), [], 0)
      else if |sealed.value| > BlockSize(w.szx) || (more && |sealed.value| != BlockSize(w.szx)) then
        Trace(Failure(Format), Counters(message, next), [], 1)
      else
        var packet := Build(block.(payload := sealed.value), route.path, MAX_PACKET);
        if packet.Err? then Trace(Failure(packet.error), Counters(message, next), [], 1)
        else
          var first := Sent(w.id, b, counters.next, packet.value);
          if transport(b).Some? then
            Trace(Failure(transport(b).value), Counters(message, next), [first], 1)
          else
            var later := SendFrom(c, route, w, size1, rest[n..], b + 1, count, Counters(message, next), transport);
            later.(sent := [first] + later.sent, seals := later.seals + 1)
  }

  /** Sending one window, from the choice of block size on. */
  function SendWindow(c: Cipher, route: Route, w: Window, counters: Counters, transport: nat -> Option<Error>): Trace
    requires |w.representation| <= MAX_REPRESENTATION
  {
    if !Sendable(w) then Trace(Failure(Range), counters, [], 0)
    else
      var count := BlockCount(|w.representation|, PieceSize(w));
      ChunksPartition(w.representation, PieceSize(w));
      if Size1Of(w) > 0xffff_ffff then Trace(Failure(Range), counters, [], 0)
      else SendFrom(c, route, w, Size1Of(w), w.representation, 0, count, counters, transport)
  }

  // ----- receiver -----

  datatype Receiver = Receiver(representation: seq<byte>, nextBlock: nat, token: seq<byte>, active: bool,
                               replay: ReplayState)

  datatype Outcome<D> = More | Complete(value: D) | Refused(error: Error)

  const FRESH: Receiver := Receiver([], 0, [], false, Seen(false, 0))

  /** Block zero starts a transfer over, before anything about it is authenticated. */
  function Restarted(r: Receiver, block: Block): Receiver {
    if block.number == 0 then Receiver([], 0, block.token, true, r.replay) else r
  }

  predicate Continues(s: Receiver, block: Block) {
    s.active && block.number == s.nextBlock && block.token == s.token
  }

  /** The plaintext of an opened block joins the representation; the last one is decoded. */
  function Stored<D>(decode: seq<byte> -> Result<D>, t: Receiver, plaintext: seq<byte>, more: byte)
    : (Receiver, Outcome<D>)
  {
    if |t.representation| + |plaintext| > MAX_REPRESENTATION then (t, Refused(Capacity))
    else
      var u := t.(representation := t.representation + plaintext, nextBlock := t.nextBlock + 1);
      if more != 0 then (u, More)
      else
        var decoded := decode(u.representation);
        if decoded.Err? then (u, Refused(decoded.error)) else (u.(active := false), Complete(decoded.value))
  }

  function AcceptBlock<D>(c: Cipher, decode: seq<byte> -> Result<D>, r: Receiver, block: Block)
    : (Receiver, Outcome<D>)
  {
    var s := Restarted(r, block);
    if !Continues(s, block) then (s, Refused(Format))
    else if block.payload == [] then (s, Refused(Argument))
    else
      var (replay, plaintext) := Open(c, s.replay, block.payload, Aad.Bytes(block), MAX_RECORD);
      if plaintext.Err? then (s.(replay := replay), Refused(plaintext.error))
      else Stored(decode, s.(replay := replay), plaintext.value, block.more)
  }

  function Accept<D>(c: Cipher, decode: seq<byte> -> Result<D>, r: Receiver, packet: seq<byte>)
    : (Receiver, Outcome<D>)
  {
    var block := Parse(packet);
    if block.Err? then (r, Refused(block.error)) else AcceptBlock(c, decode, r, block.value)
  }
}
