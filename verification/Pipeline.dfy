/** The sender of src/pipeline.c as an object: normalise, infer the state, encode, and send the
    window block by block. */
module Pipeline {
  import opened Bits
  import opened Results
  import opened Wavelet
  import opened Coap
  import CoapLoops
  import opened CoapSizes
  import opened Codec
  import CodecLoops
  import Fidelity
  import opened Reals
  import opened Config
  import opened Normalizer
  import Hmm
  import HmmLoops
  import opened Records
  import opened Providers
  import opened Segmentation
  import opened Transfer
  import Aad

  /** How one run of the sending loop ended, with the packets it handed to the transport. */
  datatype Report = Report(status: Status, sent: seq<Sent>)

  function NextWindow(id: u32): u32 {
    if id == 0xffff_ffff then 0 else id + 1
  }

  /** A window encoded for a state. */
  function WindowFor(config: Settings, samples: seq<real>, id: u32, state: Hmm.State, num: Numerics, low: Filter)
    : Result<Window>
    requires Shaped(config) && Config.Valid(config)
  {
    StateBits(config, state);
    var bytes := Encoded(samples, id, state, PolicyFor(config, state), MAX_REPRESENTATION, num, low);
    if bytes.Err? then Err(bytes.error) else Ok(Window(id, bytes.value, config.blockSzx[state]))
  }

  /** Encoding a window for a state and sending what comes out: the report and the counters. */
  function Sending(c: Cipher, config: Settings, samples: seq<real>, id: u32, state: Hmm.State, counters: Counters,
                   transport: nat -> Option<Error>, num: Numerics, low: Filter): (Report, Counters)
    requires Shaped(config) && Config.Valid(config)
  {
    var w := WindowFor(config, samples, id, state, num, low);
    if w.Err? then (Report(Failure(w.error), []), counters)
    else
      var t := SendWindow(c, Route(config.uriPath, config.contentFormat), w.value, counters, transport);
      (Report(t.status, t.sent), t.counters)
  }

  /** The window's header, byte by byte, as the configuration gives it for the state: the format,
      depth, width and state, the identity, and the threshold with the gain of the state. */
  ghost predicate HeaderSays(w: Window, config: Settings, samples: seq<real>, id: u32, state: Hmm.State, num: Numerics,
                             low: Filter)
    requires Shaped(config)
  {
    var e := w.representation;
    w.id == id && w.szx == config.blockSzx[state] && |e| >= HEADER_BYTES && Splits(|samples|, config.waveletLevels)
    && e[..5] == [0x41, 0x44, 0x57, 0x31, 1]
    && e[5] as nat == config.waveletLevels && e[6] as nat == config.quantBits[state] && e[7] == state
    && FromLittleEndian(e[8..10]) == |samples| && FromLittleEndian(e[12..16]) == id
    && var c := ForwardTransform(low, samples, config.waveletLevels);
       FromLittleEndian(e[20..24])
       == num.toBits(Times(Times(config.thresholdGain[state], num.noise(c)), num.universal(|samples|)))
  }

  lemma WindowHeader(config: Settings, samples: seq<real>, id: u32, state: Hmm.State, num: Numerics, low: Filter)
    requires Shaped(config) && Config.Valid(config) && |samples| == config.windowSize
    requires WindowFor(config, samples, id, state, num, low).Ok?
    ensures HeaderSays(WindowFor(config, samples, id, state, num, low).value, config, samples, id, state, num, low)
  {
    hide Encoded, ForwardTransform, Splits, TransformOk, FromLittleEndian, IsPowerOfTwo;
    var policy := PolicyFor(config, state);
    ValidWindowEncodes(config, state, samples);
    AcceptedSplits(|samples|, policy.levels, MAX_WINDOW);
    Fidelity.HeaderOfEncoded(samples, id, state, policy, MAX_REPRESENTATION, num, low);
  }

  /** What was reported is the sending of one window whose header says this, or nothing was
      sent. */
  ghost predicate SentUnder(c: Cipher, config: Settings, samples: seq<real>, id: u32, state: Hmm.State,
                            counters: Counters, transport: nat -> Option<Error>, report: Report, there: Counters,
                            num: Numerics, low: Filter)
    requires Shaped(config)
  {
    (report.status.Failure? && report.sent == []) ||
    exists w: Window :: |w.representation| <= MAX_REPRESENTATION && HeaderSays(w, config, samples, id, state, num, low)
      && var t := SendWindow(c, Route(config.uriPath, config.contentFormat), w, counters, transport);
         report == Report(t.status, t.sent) && there == t.counters
  }

  lemma SendingUnder(c: Cipher, config: Settings, samples: seq<real>, id: u32, state: Hmm.State, counters: Counters,
                     transport: nat -> Option<Error>, num: Numerics, low: Filter)
    requires Shaped(config) && Config.Valid(config) && |samples| == config.windowSize
    ensures var (report, there) := Sending(c, config, samples, id, state, counters, transport, num, low);
      SentUnder(c, config, samples, id, state, counters, transport, report, there, num, low)
  {
    hide HeaderSays, SendWindow, Encoded, IsPowerOfTwo;
    if WindowFor(config, samples, id, state, num, low).Ok? {
      WindowHeader(config, samples, id, state, num, low);
      var w := WindowFor(config, samples, id, state, num, low).value;
      assert HeaderSays(w, config, samples, id, state, num, low);
    }
  }

  /** What the pipeline tells its caller about a window it sent. */
  datatype Stats = Stats(windowId: u32, state: Hmm.State, stateProbability: real, samplingFactor: real,
                         inputBytes: nat, compressedBytes: nat, protectedBodyBytes: nat, blockCount: nat,
                         blockSzx: byte, compressionRatio: real)

  const SAMPLE_BYTES: nat := 4

  /** The account of a window: given when it was sent and only then, of the records sent. */
  ghost predicate Accounts(stats: Option<Stats>, report: Report, config: Settings, samples: seq<real>, id: u32,
                           state: Hmm.State, probability: real, num: Numerics, low: Filter)
    requires Shaped(config) && Config.Valid(config)
  {
    if stats.None? then report.status.Failure?
    else
      var a, w := stats.value, WindowFor(config, samples, id, state, num, low);
      report.status == Success && w.Ok? && Sendable(w.value)
      && a.windowId == id && a.state == state && a.stateProbability == probability
      && a.samplingFactor == config.samplingFactor[state] && a.blockSzx == w.value.szx
      && a.compressedBytes == |w.value.representation| && a.protectedBodyBytes == ProtectedTotal(Pieces(w.value))
      && a.blockCount == |Pieces(w.value)| && a.inputBytes == SAMPLE_BYTES * |samples|
      && a.compressionRatio * (a.inputBytes as real) == a.compressedBytes as real
  }

  class TelemetryPipeline {
    const config: Settings
    const normalizer: OnlineNormalizer
    const hmm: HmmLoops.OnlineHmm
    const security: TestProvider
    var nextWindowId: u32
    var nextMessageId: u16

    constructor (config: Settings, security: TestProvider, m: Hmm.Libm)
      requires Shaped(config) && Config.Valid(config) && m.tiny > 0.0
      ensures Valid() && this.config == config && this.security == security
      ensures Hmm.Startable(config) && hmm.View() == Hmm.Initial(config, m)
      ensures !normalizer.initialized && normalizer.epsilon == config.baselineEpsilon
      ensures nextWindowId == 1 && nextMessageId == 1
      ensures fresh(normalizer) && fresh(hmm)
    {
      hide IsPowerOfTwo;
      assert Hmm.Startable(config) by { ConfigStarts(config); }
      this.config, this.security := config, security;
      normalizer := new OnlineNormalizer(config.baselineAlpha, config.baselineEpsilon);
      hmm := new HmmLoops.OnlineHmm(config, m);
      nextWindowId, nextMessageId := 1, 1;
      new;
      Hmm.InitialIsLearnable(config, m);
    }

    ghost predicate Valid()
      reads this, normalizer, hmm
    {
      Shaped(config) && Config.Valid(config) && normalizer.Valid() && Hmm.Learnable(hmm.View())
    }

    function Here(): Counters
      reads this, security
    {
      Counters(nextMessageId, security.txSequence)
    }

    function RouteHere(): Route {
      Route(config.uriPath, config.contentFormat)
    }

    /** One turn of the sending loop, from the header to the built packet. */
    method SealAndBuild(w: Window, size1: u32, b: nat, more: bool, plaintext: seq<byte>)
      returns (r: Result<seq<byte>>)
      requires Sendable(w) && b <= MAX_REPRESENTATION
      modifies this`nextMessageId, security`txSequence
      ensures var c := TestCipher(security.txKey);
        var block := HeaderBlock(RouteHere(), w, old(nextMessageId), b, more, size1);
        var (next, sealed) := Seal(c, old(security.txSequence), Aad.Bytes(block), plaintext, MAX_RECORD);
        Here() == Counters(NextMessage(old(nextMessageId)), next) && r ==
          if sealed.Err? then Err(sealed.error)
          else if |sealed.value| > BlockSize(w.szx) || (more && |sealed.value| != BlockSize(w.szx)) then Err(Format)
          else Build(block.(payload := sealed.value), config.uriPath, MAX_PACKET)
    {
      hide Aad.Bytes, Build, TestCipher, BlockSize, Seal;
      var block := HeaderBlock(RouteHere(), w, nextMessageId, b, more, size1);
      nextMessageId := NextMessage(nextMessageId);
      var aad := new byte[16];
      Aad.BuildAad(block, aad);
      var record := new byte[MAX_RECORD];
      var sealed := security.SealInto(plaintext, aad[..], record);
      if sealed.Err? { return Err(sealed.error); }
      var recordLength := sealed.value;
      if recordLength > BlockSize(w.szx) || (more && recordLength != BlockSize(w.szx)) { return Err(Format); }
      var packet := new byte[MAX_PACKET];
      var built := CoapLoops.BuildBlock1(block.(payload := record[..recordLength]), config.uriPath, packet);
      if built.Err? { return Err(built.error); }
      return Ok(packet[..built.value]);
    }

    /** The sending loop: what it does is one trace of the transfer protocol. */
    method Send(w: Window, transport: nat -> Option<Error>) returns (report: Report)
      requires |w.representation| <= MAX_REPRESENTATION
      modifies this`nextMessageId, security`txSequence
      ensures var t := SendWindow(TestCipher(security.txKey), RouteHere(), w, old(Here()), transport);
        report == Report(t.status, t.sent) && Here() == t.counters
    {
      hide Aad.Bytes, Build, TestCipher, BlockSize, Seal, SendFrom, Chunks, BlockCount;
      var blockSize := BlockSize(w.szx);
      if blockSize == 0 || blockSize > MAX_RECORD || blockSize <= OVERHEAD { return Report(Failure(Range), []); }
      var plaintextCapacity := blockSize - OVERHEAD;
      var blockCount := BlockCount(|w.representation|, plaintextCapacity);
      var totalProtected := |w.representation| + blockCount * OVERHEAD;
      if totalProtected > 0xffff_ffff { return Report(Failure(Range), []); }
      ChunksPartition(w.representation, plaintextCapacity);
      report := Loop(w, totalProtected, blockCount, transport);
    }

    method Loop(w: Window, size1: u32, blockCount: nat, transport: nat -> Option<Error>) returns (report: Report)
      requires Sendable(w) && blockCount <= MAX_REPRESENTATION
      requires blockCount == BlockCount(|w.representation|, PieceSize(w))
      modifies this`nextMessageId, security`txSequence
      ensures var t := SendFrom(TestCipher(security.txKey), RouteHere(), w, size1, w.representation, 0, blockCount,
                                old(Here()), transport);
        report == Report(t.status, t.sent) && Here() == t.counters
    {
      hide Aad.Bytes, Build, TestCipher, BlockSize, Seal, SendFrom, BlockCount, Chunks, PieceSize;
      ghost var c, route := TestCipher(security.txKey), RouteHere();
      ghost var whole := SendFrom(c, route, w, size1, w.representation, 0, blockCount, Here(), transport);
      var offset: nat := 0;
      var sent: seq<Sent> := [];
      assert w.representation[0..] == w.representation;
      for b := 0 to blockCount
        invariant offset <= |w.representation|
        invariant var t := SendFrom(c, route, w, size1, w.representation[offset..], b, blockCount, Here(), transport);
          whole.status == t.status && whole.counters == t.counters && whole.sent == sent + t.sent
      {
        var remaining := |w.representation| - offset;
        var plaintextLength := if remaining < PieceSize(w) then remaining else PieceSize(w);
        var more := b + 1 < blockCount;
        var sequence := security.txSequence;
        ghost var rest, before := w.representation[offset..], Here();
        TurnOf(c, route, w, size1, rest, b, blockCount, before, transport);
        SliceTwice(w.representation, offset, plaintextLength);
        var built := SealAndBuild(w, size1, b, more, w.representation[offset..offset + plaintextLength]);
        if built.Err? {
          assert sent + [] == sent;
          return Report(Failure(built.error), sent);
        }
        var first := Sent(w.id, b, sequence, built.value);
        ghost var later := SendFrom(c, route, w, size1, rest[plaintextLength..], b + 1, blockCount, Here(), transport);
        AppendCons(sent, first, later.sent);
        assert sent + [first] + [] == sent + [first];
        sent := sent + [first];
        var answer := transport(b);
        if answer.Some? {
          return Report(Failure(answer.value), sent);
        }
        offset := offset + plaintextLength;
      }
      EndOfLoop(c, route, w, size1, w.representation[offset..], blockCount, Here(), transport);
      assert sent + [] == sent;
      return Report(Success, sent);
    }

    /** One window: the metrics move the model, the model chooses the policy, the window is
        encoded under the next identity and sent. Whatever fails, the identity is spent. */
    method Process(samples: seq<real>, metrics: Readings, transport: nat -> Option<Error>,
                   sqrt: real -> real, m: Hmm.Libm, num: Numerics, low: Filter)
      returns (report: Report, scores: Vector, stats: Option<Stats>)
      requires Valid() && Root(sqrt) && m.tiny > 0.0
      requires |samples| == config.windowSize && AllFinite(metrics) ==> normalizer.Rootable()
      modifies this, normalizer, hmm, security`txSequence
      ensures Valid()
      ensures |samples| != config.windowSize || !AllFinite(metrics) ==>
        report == Report(Failure(if |samples| != config.windowSize then Argument else Range), [])
        && unchanged(this, normalizer, hmm, security)
      ensures |samples| == config.windowSize && AllFinite(metrics) ==>
        nextWindowId == NextWindow(old(nextWindowId))
        && normalizer.seen == old(normalizer.seen) + [Values(metrics)]
        && scores == old(normalizer.ScoresFor(metrics, sqrt))
        && hmm.View() == Hmm.Step(old(hmm.View()), scores, m)
        && (report, Here()) == Sending(TestCipher(security.txKey), config, samples, old(nextWindowId), hmm.state,
                                       old(Here()), transport, num, low)
        && SentUnder(TestCipher(security.txKey), config, samples, old(nextWindowId), hmm.state, old(Here()), transport,
                     report, Here(), num, low)
      ensures Accounts(stats, report, config, samples, old(nextWindowId), hmm.state, hmm.belief[hmm.state], num, low)
    {
      hide Sending, WindowFor, Hmm.Step, Hmm.Learnable, IsPowerOfTwo, TestCipher, AllFinite, Accounts, SentUnder;
      scores, stats := ZERO, None;
      NoAccount(config, samples, nextWindowId, num, low);
      if |samples| != config.windowSize { return Report(Failure(Argument), []), scores, stats; }
      var normalized := normalizer.Update(metrics, sqrt);
      if normalized.Err? { return Report(Failure(normalized.error), []), scores, stats; }
      scores := normalized.value;
      var state, probability := hmm.Step(scores, m);
      var windowId := nextWindowId;
      nextWindowId := NextWindow(nextWindowId);
      ghost var c, start := TestCipher(security.txKey), Here();
      report, stats := Transmit(samples, windowId, state, probability[state], transport, num, low);
      SendingUnder(c, config, samples, windowId, state, start, transport, num, low);
    }

    /** The second half: the window encoded for the inferred state, sent and accounted for. */
    method Transmit(samples: seq<real>, windowId: u32, state: Hmm.State, probability: real,
                    transport: nat -> Option<Error>, num: Numerics, low: Filter)
      returns (report: Report, stats: Option<Stats>)
      requires Shaped(config) && Config.Valid(config) && |samples| == config.windowSize
      modifies this`nextMessageId, security`txSequence
      ensures (report, Here()) == Sending(TestCipher(security.txKey), config, samples, windowId, state,
                                          old(Here()), transport, num, low)
      ensures Accounts(stats, report, config, samples, windowId, state, probability, num, low)
    {
      hide Encoded, SendWindow, IsPowerOfTwo, TestCipher, Accounts;
      stats := None;
      NoAccount(config, samples, windowId, num, low);
      StateBits(config, state);
      var representation := new byte[MAX_REPRESENTATION];
      var encoded := CodecLoops.Encode(samples, windowId, state, PolicyFor(config, state), representation, num, low);
      if encoded.Err? { return Report(Failure(encoded.error), []), stats; }
      var w := Window(windowId, representation[..encoded.value], config.blockSzx[state]);
      report := Send(w, transport);
      if report.status == Success {
        SentIsSendable(TestCipher(security.txKey), RouteHere(), w, old(Here()), transport);
        stats := Some(AccountOf(w, state, probability, |samples|));
        OneAccount(this, report, samples, w, state, probability, num, low);
      }
    }

    /** The statistics of the source, from what the sending loop worked with. */
    function AccountOf(w: Window, state: Hmm.State, probability: real, count: nat): Stats
      requires Shaped(config) && Config.Valid(config) && Sendable(w) && count == config.windowSize
    {
      var blockCount := BlockCount(|w.representation|, PieceSize(w));
      Stats(w.id, state, probability, config.samplingFactor[state], SAMPLE_BYTES * count, |w.representation|,
            |w.representation| + blockCount * OVERHEAD, blockCount, w.szx,
            (|w.representation| as real) / ((SAMPLE_BYTES * count) as real))
    }
  }

  lemma NoAccount(config: Settings, samples: seq<real>, id: u32, num: Numerics, low: Filter)
    requires Shaped(config) && Config.Valid(config)
    ensures forall e, sent, state: Hmm.State, p ::
      Accounts(None, Report(Failure(e), sent), config, samples, id, state, p, num, low)
  {
    hide WindowFor;
  }

  lemma SentIsSendable(c: Cipher, route: Route, w: Window, counters: Counters, transport: nat -> Option<Error>)
    requires |w.representation| <= MAX_REPRESENTATION
    requires SendWindow(c, route, w, counters, transport).status == Success
    ensures Sendable(w)
  {
  }

  lemma OneAccount(p: TelemetryPipeline, report: Report, samples: seq<real>, w: Window, state: Hmm.State,
                   probability: real, num: Numerics, low: Filter)
    requires Shaped(p.config) && Config.Valid(p.config) && Sendable(w) && |samples| == p.config.windowSize
    requires report.status == Success && WindowFor(p.config, samples, w.id, state, num, low) == Ok(w)
    ensures Accounts(Some(p.AccountOf(w, state, probability, |samples|)), report, p.config, samples, w.id, state,
                     probability, num, low)
  {
    hide WindowFor, IsPowerOfTwo, Chunks, BlockCount, ProtectedTotal, BlockSize;
    ChunksPartition(w.representation, PieceSize(w));
    ProtectedTotalIsSize1(w.representation, PieceSize(w));
    RatioTimes(|w.representation| as real, (SAMPLE_BYTES * |samples|) as real);
  }

  lemma RatioTimes(a: real, b: real)
    requires b != 0.0
    ensures a / b * b == a
  {
  }

  lemma ConfigStarts(c: Settings)
    requires Shaped(c) && Config.Valid(c)
    ensures Hmm.Startable(c)
  {
    hide IsPowerOfTwo, Sum;
    forall r | 0 <= r < 5
      ensures (forall t :: 0 <= t < 5 ==> c.transitionPrior[r][t] >= 0.0) && Sum(c.transitionPrior[r]) > 0.0
    {
      assert StateOk(c, r);
    }
  }

  lemma StateBits(c: Settings, s: nat)
    requires Shaped(c) && Config.Valid(c) && s < STATES
    ensures 2 <= c.quantBits[s] <= 15
  {
    assert StateOk(c, s);
  }

  /** The turns of the loop, as the trace unfolds. */
  lemma TurnOf(c: Cipher, route: Route, w: Window, size1: u32, rest: seq<byte>, b: nat, count: nat,
               counters: Counters, transport: nat -> Option<Error>)
    requires Sendable(w) && b < count <= MAX_REPRESENTATION
    ensures var n := if |rest| < PieceSize(w) then |rest| else PieceSize(w);
      var more := b + 1 < count;
      var block := HeaderBlock(route, w, counters.message, b, more, size1);
      var (next, sealed) := Seal(c, counters.next, Aad.Bytes(block), rest[..n], MAX_RECORD);
      var after := Counters(NextMessage(counters.message), next);
      var built := if sealed.Err? then Err(sealed.error)
        else if |sealed.value| > BlockSize(w.szx) || (more && |sealed.value| != BlockSize(w.szx)) then Err(Format)
        else Build(block.(payload := sealed.value), route.path, MAX_PACKET);
      var t := SendFrom(c, route, w, size1, rest, b, count, counters, transport);
      (built.Err? ==> t.status == Failure(built.error) && t.counters == after && t.sent == [])
      && (built.Ok? ==>
        var first := Sent(w.id, b, counters.next, built.value);
        if transport(b).Some? then t.status == Failure(transport(b).value) && t.counters == after && t.sent == [first]
        else
          var later := SendFrom(c, route, w, size1, rest[n..], b + 1, count, after, transport);
          t.status == later.status && t.counters == later.counters && t.sent == [first] + later.sent)
  {
    hide Aad.Bytes, Build, Seal, BlockSize;
  }

  lemma EndOfLoop(c: Cipher, route: Route, w: Window, size1: u32, rest: seq<byte>, count: nat,
                  counters: Counters, transport: nat -> Option<Error>)
    requires Sendable(w) && count <= MAX_REPRESENTATION
    ensures SendFrom(c, route, w, size1, rest, count, count, counters, transport) == Trace(Success, counters, [], 0)
  {
  }
}
