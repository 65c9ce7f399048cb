/** The two receivers as objects: the host receiver (src/receiver.c) and the request handler of
    the Contiki server (platform/contiki-ng/adaptive-server.c). Both run the receiver of module
    Transfer, so what is proved of its runs holds of theirs. */
module Receiving {
  import opened Bits
  import opened Results
  import opened Wavelet
  import opened Coap
  import CoapLoops
  import opened Codec
  import CodecLoops
  import opened Records
  import opened Providers
  import opened Transfer
  import Aad

  function Decoder(room: nat, num: Numerics, low: Filter): seq<byte> -> Result<Decoded> {
    bytes => Decode(bytes, room, num, low)
  }

  /** Parsed block numbers stay below 2^28, so the 32-bit counter of the receiver never wraps. */
  lemma ParsedNumberBound(p: seq<byte>)
    ensures Parse(p).Ok? ==> Parse(p).value.number < 0x1000_0000
  {
    if Parse(p).Ok? {
      var options := ReadOptions(p[4 + p[0] % 16..], 0).value.0;
      UintBound(options, BLOCK1);
    }
  }

  /** The reassembly buffer and its bookkeeping. */
  class TelemetryReceiver {
    const representation: array<byte>
    var representationLength: nat
    var nextBlock: nat
    var token: seq<byte>
    var active: bool
    const security: TestProvider

    constructor (security: TestProvider)
      ensures Valid() && this.security == security && fresh(representation)
      ensures View() == Receiver([], 0, [], false, security.State())
    {
      representation := new byte[MAX_REPRESENTATION];
      representationLength, nextBlock, token, active := 0, 0, [], false;
      this.security := security;
    }

    predicate Valid()
      reads this
    {
      representation.Length == MAX_REPRESENTATION && representationLength <= MAX_REPRESENTATION
      && nextBlock <= 0x1000_0000
    }

    function View(): Receiver
      requires Valid()
      reads this, representation, security
    {
      Receiver(representation[..representationLength], nextBlock, token, active, security.State())
    }

    method Accept(packet: seq<byte>, samples: array<real>, num: Numerics, low: Filter) returns (o: Outcome<Decoded>)
      requires Valid()
      modifies this, representation, samples, security`rxHighest, security`rxInitialized
      ensures Valid()
      ensures (View(), o)
        == Transfer.Accept(TestCipher(security.rxKey), Decoder(samples.Length, num, low), old(View()), packet)
      ensures o.Complete? ==> |o.value.samples| <= samples.Length && samples[..|o.value.samples|] == o.value.samples
    {
      hide Parse, Decode, Aad.Bytes, Open;
      var parsed := CoapLoops.ParseBlock1(packet);
      if parsed.Err? { return Refused(parsed.error); }
      var block := parsed.value;
      ParsedNumberBound(packet);
      o := AcceptParsed(block, samples, num, low);
    }

    method AcceptParsed(block: Block, samples: array<real>, num: Numerics, low: Filter) returns (o: Outcome<Decoded>)
      requires Valid() && block.number < 0x1000_0000
      modifies this, representation, samples, security`rxHighest, security`rxInitialized
      ensures Valid()
      ensures (View(), o)
        == AcceptBlock(TestCipher(security.rxKey), Decoder(samples.Length, num, low), old(View()), block)
      ensures o.Complete? ==> |o.value.samples| <= samples.Length && samples[..|o.value.samples|] == o.value.samples
    {
      hide Decode, Aad.Bytes, Open, Stored;
      if block.number == 0 {
        representationLength, nextBlock, token, active := 0, 0, block.token, true;
      }
      ghost var s := Restarted(old(View()), block);
      assert View() == s;
      if !active || block.number != nextBlock || block.token != token { return Refused(Format); }
      if block.payload == [] { return Refused(Argument); }
      var aad := new byte[16];
      Aad.BuildAad(block, aad);
      var plaintext := new byte[1024];
      var got := security.OpenRecord(block.payload, aad[..], plaintext);
      assert representation[..representationLength] == s.representation;
      if got.Err? { return Refused(got.error); }
      o := Store(plaintext, got.value, block.more, samples, num, low);
    }

    method Store(plaintext: array<byte>, n: nat, more: byte, samples: array<real>, num: Numerics, low: Filter)
      returns (o: Outcome<Decoded>)
      requires Valid() && nextBlock < 0x1000_0000 && n <= plaintext.Length && plaintext != representation
      modifies this, representation, samples
      ensures Valid()
      ensures (View(), o) == Stored(Decoder(samples.Length, num, low), old(View()), old(plaintext[..n]), more)
      ensures o.Complete? ==> |o.value.samples| <= samples.Length && samples[..|o.value.samples|] == o.value.samples
    {
      hide Decode;
      if n > MAX_REPRESENTATION - representationLength { return Refused(Capacity); }
      ghost var t := old(View());
      ghost var before, data := representation[..representationLength], plaintext[..n];
      forall i | 0 <= i < n { representation[representationLength + i] := plaintext[i]; }
      representationLength := representationLength + n;
      nextBlock := nextBlock + 1;
      assert representation[..representationLength] == before + data;
      assert View() == t.(representation := t.representation + data, nextBlock := t.nextBlock + 1);
      if more != 0 { return More; }
      var decoded := CodecLoops.DecodeWindow(representation[..representationLength], samples, num, low);
      if decoded.Err? { return Refused(decoded.error); }
      active := false;
      return Complete(decoded.value);
    }
  }

  // ----- the server -----

  /** What the CoAP engine hands to the handler. */
  datatype Request = Request(block1: Option<(u32, byte, u16)>, payload: seq<byte>, typ: byte, code: byte,
                             token: seq<byte>, contentFormat: Option<u32>)

  datatype Response = BadRequest | Incomplete | Unauthorized | Continue | Changed

  function SizeExponent(size: nat, candidate: byte): Option<byte>
    requires candidate <= 7
    decreases 7 - candidate
  {
    if candidate > 6 then None
    else if BlockSize(candidate) == size then Some(candidate)
    else SizeExponent(size, candidate + 1)
  }

  method SzxFromSize(size: nat) returns (r: Option<byte>)
    ensures r == SizeExponent(size, 0)
    ensures r.Some? ==> r.value <= 6 && BlockSize(r.value) == size
  {
    hide BlockSize;
    var candidate: byte := 0;
    while candidate <= 6
      invariant candidate <= 7 && SizeExponent(size, candidate) == SizeExponent(size, 0)
      decreases 7 - candidate
    {
      if BlockSize(candidate) == size { return Some(candidate); }
      candidate := candidate + 1;
    }
    return None;
  }

  predicate RequestOk(q: Request) {
    q.block1.Some? && q.payload != [] && SizeExponent(q.block1.value.2, 0).Some? && 1 <= |q.token| <= 8
  }

  function RequestBlock(q: Request): Block
    requires RequestOk(q)
  {
    Block(q.typ, q.code, 0, q.token, q.block1.value.0, q.block1.value.1, SizeExponent(q.block1.value.2, 0).value,
          if q.contentFormat.Some? then q.contentFormat.value else 0, 0, q.payload)
  }

  /** The status code of each outcome; refusals are told apart by the stage that refused. */
  function ResponseTo(c: Cipher, r: Receiver, block: Block, o: Outcome<Decoded>): Response {
    var s := Restarted(r, block);
    match o
    case More => Continue
    case Complete(_) => Changed
    case Refused(_) =>
      if !Continues(s, block) then Incomplete
      else
        var plaintext := Open(c, s.replay, block.payload, Aad.Bytes(block), 1024).1;
        if plaintext.Err? || |s.representation| + |plaintext.value| > MAX_REPRESENTATION then Unauthorized
        else BadRequest
  }

  class TelemetryServer {
    const representation: array<byte>
    var representationLength: nat
    var nextBlock: nat
    var activeToken: seq<byte>
    var transferActive: bool
    const plaintext: array<byte>
    const decodedSamples: array<real>
    const security: TestProvider

    constructor (security: TestProvider)
      ensures Valid() && this.security == security
      ensures View() == Receiver([], 0, [], false, security.State())
    {
      representation := new byte[MAX_REPRESENTATION];
      plaintext := new byte[1024];
      decodedSamples := new real[MAX_WINDOW];
      representationLength, nextBlock, activeToken, transferActive := 0, 0, [], false;
      this.security := security;
    }

    predicate Valid()
      reads this
    {
      representation.Length == MAX_REPRESENTATION && representationLength <= MAX_REPRESENTATION
      && plaintext.Length == 1024 && decodedSamples.Length == MAX_WINDOW && plaintext != representation
    }

    function View(): Receiver
      requires Valid()
      reads this, representation, security
    {
      Receiver(representation[..representationLength], nextBlock, activeToken, transferActive, security.State())
    }

    /** A malformed request changes nothing; any other drives the receiver of the host exactly,
        and the status code says how far it got. */
    method Post(q: Request, num: Numerics, low: Filter) returns (response: Response)
      requires Valid()
      modifies this, representation, plaintext, decodedSamples, security`rxHighest, security`rxInitialized
      ensures Valid()
      ensures !RequestOk(q) ==> response == BadRequest && View() == old(View())
      ensures RequestOk(q) ==>
        var c := TestCipher(security.rxKey);
        var (r, o) := AcceptBlock(c, Decoder(MAX_WINDOW, num, low), old(View()), RequestBlock(q));
        View() == r && response == ResponseTo(c, old(View()), RequestBlock(q), o)
    {
      hide Decode, Aad.Bytes, Open, SizeExponent, Stored;
      if q.block1.None? || |q.payload| == 0 { return BadRequest; }
      var (number, more, size) := q.block1.value;
      var szx := SzxFromSize(size);
      if szx.None? || |q.token| == 0 || |q.token| > 8 { return BadRequest; }
      var block := RequestBlock(q);
      var aad := new byte[16];
      Aad.BuildAad(block, aad);
      if number == 0 {
        representationLength, nextBlock, activeToken, transferActive := 0, 0, q.token, true;
      }
      ghost var s := Restarted(old(View()), block);
      assert View() == s;
      if !transferActive || number != nextBlock || q.token != activeToken { return Incomplete; }
      var got := security.OpenRecord(q.payload, aad[..], plaintext);
      assert representation[..representationLength] == s.representation;
      if got.Err? { return Unauthorized; }
      response := Store(got.value, more, num, low);
    }

    method Store(n: nat, more: byte, num: Numerics, low: Filter) returns (response: Response)
      requires Valid() && n <= plaintext.Length
      modifies this, representation, decodedSamples
      ensures Valid()
      ensures var (u, o) := Stored(Decoder(MAX_WINDOW, num, low), old(View()), old(plaintext[..n]), more);
        View() == u && response == match o
          case More => Continue
          case Complete(_) => Changed
          case Refused(_) => if |old(View()).representation| + n > MAX_REPRESENTATION then Unauthorized else BadRequest
    {
      hide Decode;
      if n > MAX_REPRESENTATION - representationLength { return Unauthorized; }
      ghost var t := old(View());
      ghost var before, data := representation[..representationLength], plaintext[..n];
      forall i | 0 <= i < n { representation[representationLength + i] := plaintext[i]; }
      representationLength := representationLength + n;
      nextBlock := nextBlock + 1;
      assert representation[..representationLength] == before + data;
      assert View() == t.(representation := t.representation + data, nextBlock := t.nextBlock + 1);
      if more != 0 { return Continue; }
      var decoded := CodecLoops.DecodeWindow(representation[..representationLength], decodedSamples, num, low);
      if decoded.Err? { return BadRequest; }
      transferActive := false;
      return Changed;
    }
  }

  /** The request the engine makes of a parsed block (block sizes are powers of two from 16). */
  function RequestOf(k: Block): Request
    requires k.szx <= 6
  {
    SizesSmall(k.szx);
    Request(Some((k.number, k.more, BlockSize(k.szx))), k.payload, k.typ, k.code, k.token, Some(k.contentFormat))
  }

  lemma SizesSmall(szx: byte)
    requires szx <= 6
    ensures BlockSize(szx) < 0x1_0000 && SizeExponent(BlockSize(szx), 0) == Some(szx)
  {
    assert Pow2(4) == 16 && Pow2(5) == 32 && Pow2(6) == 64 && Pow2(7) == 128 && Pow2(8) == 256;
    assert Pow2(9) == 512 && Pow2(10) == 1024;
    assert szx == 0 || szx == 1 || szx == 2 || szx == 3 || szx == 4 || szx == 5 || szx == 6;
    LaterExponent(BlockSize(szx), szx);
  }

  /** Candidates that have another size are passed over. */
  lemma LaterExponent(size: nat, szx: byte)
    requires szx <= 6 && size == BlockSize(szx)
    requires forall z: byte :: z < szx ==> BlockSize(z) != size
    ensures SizeExponent(size, 0) == Some(szx)
  {
    hide BlockSize;
    Passed(size, szx, szx);
  }

  lemma {:induction false} Passed(size: nat, szx: byte, k: nat)
    requires szx <= 6 && size == BlockSize(szx) && k <= szx
    requires forall z: byte :: z < szx ==> BlockSize(z) != size
    ensures SizeExponent(size, szx - k) == Some(szx)
  {
    hide BlockSize;
    if k == 0 {
    } else {
      Passed(size, szx, k - 1);
    }
  }

  /** The handler and the host receiver do the same with every packet that carries a record and
      a token: the safety and progress of the transfer hold of the server too. */
  lemma ServerActsAsReceiver<D>(c: Cipher, decode: seq<byte> -> Result<D>, r: Receiver, packet: seq<byte>)
    requires Parse(packet).Ok? && Parse(packet).value.payload != [] && 1 <= |Parse(packet).value.token| <= 8
    ensures Parse(packet).value.szx <= 6
    ensures var q := RequestOf(Parse(packet).value);
      RequestOk(q) && AcceptBlock(c, decode, r, RequestBlock(q)) == Transfer.Accept(c, decode, r, packet)
  {
    hide Open, BlockSize, SizeExponent;
    var k := Parse(packet).value;
    ParsedExponent(packet);
    SizesSmall(k.szx);
    var b := RequestBlock(RequestOf(k));
    assert Aad.Bytes(b) == Aad.Bytes(k);
  }

  lemma ParsedExponent(p: seq<byte>)
    requires Parse(p).Ok?
    ensures Parse(p).value.szx <= 6
  {
    var options := ReadOptions(p[4 + p[0] % 16..], 0).value.0;
    LastUsable(options);
  }

  lemma {:induction false} LastUsable(opts: seq<Opt>)
    requires AllUsable(opts) && LastOf(opts, BLOCK1).Some?
    ensures FromBigEndian(LastOf(opts, BLOCK1).value) % 8 <= 6
    decreases |opts|
  {
    var last := opts[|opts| - 1];
    if last.number != BLOCK1 { LastUsable(opts[..|opts| - 1]); } else { assert Usable(last); }
  }
}
