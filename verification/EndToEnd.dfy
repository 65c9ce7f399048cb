/** The components together: from a window of samples at the sender to the samples a receiver
    reports, through any lawful record provider and any channel that delivers only packets
    that were sent. */
module EndToEnd {
  import opened Bits
  import opened Results
  import opened Reals
  import opened Wavelet
  import opened Reconstruction
  import opened Distortion
  import opened Isometry
  import opened Codec
  import opened Fidelity
  import opened Coap
  import opened CoapSizes
  import opened Records
  import Providers
  import opened Segmentation
  import opened Transfer
  import opened Delivery
  import opened Receiving

  /** A window of samples, and the state and policy it was encoded with. */
  datatype Job = Job(samples: seq<real>, state: byte, policy: Policy)

  /** Every plan sends what its job encodes to, or nothing (its encoding failed). */
  predicate Planned(jobs: seq<Job>, plans: seq<Plan>, first: u32, num: Numerics, low: Filter) {
    |jobs| == |plans| && first + |plans| <= 0x1_0000_0000 &&
    forall k :: 0 <= k < |plans| ==>
      plans[k].representation == [] || PlanOf(jobs[k], plans[k].representation, first + k, num, low)
  }

  predicate PlanOf(job: Job, representation: seq<byte>, id: u32, num: Numerics, low: Filter) {
    Encodable(job.samples, job.policy)
    && Encoded(job.samples, id, job.state, job.policy, MAX_REPRESENTATION, num, low) == Ok(representation)
  }

  /** The reported samples are, up to the drift of the filter, within the budget of the codec of
      the samples that were sent. */
  ghost predicate Close(job: Job, samples: seq<real>, num: Numerics, low: Filter)
    requires Encodable(job.samples, job.policy) && ScaleSurvives(job.samples, job.policy, num, low)
  {
    var x, b := job.samples, BudgetFor(job.samples, job.policy, num, low);
    |samples| == |x| &&
    WithinDrift(Dot(Minus(x, samples), Minus(x, samples)), Dot(b, b), Dot(x, x),
                Drift(Defect(low), job.policy.levels))
  }

  /** The window was encoded at this depth and width, and thresholded by this gain times the
      noise and the universal factor of its own coefficients. */
  ghost predicate EncodedUnder(d: Decoded, x: seq<real>, levels: nat, quantBits: nat, gain: real, num: Numerics,
                               low: Filter)
  {
    Splits(|x|, levels) && d.levels == levels && d.quantBits == quantBits &&
    var c := ForwardTransform(low, x, levels);
    d.thresholdBits == num.toBits(Times(Times(gain, num.noise(c)), num.universal(|x|)))
  }

  /** What a completion reports about its window. */
  ghost predicate Reports(job: Job, id: u32, d: Decoded, num: Numerics, low: Filter) {
    Encodable(job.samples, job.policy) && ScaleSurvives(job.samples, job.policy, num, low)
    && d.windowId == id && d.state == job.state && Close(job, d.samples, num, low)
    && EncodedUnder(d, job.samples, job.policy.levels, job.policy.quantBits, job.policy.gain, num, low)
  }

  /** In numbers, for the filter as published: the squared error is at most 1.000001 times the
      squared budget and 5e-15 of the energy of the window. */
  lemma ShippedReports(job: Job, id: u32, d: Decoded, num: Numerics, low: Filter)
    requires low == DB4_LOW && Reports(job, id, d, num, low)
    ensures var x, b := job.samples, BudgetFor(job.samples, job.policy, num, low);
      |d.samples| == |x| && Dot(Minus(x, d.samples), Minus(x, d.samples))
                            <= 1.000001 * Dot(b, b) + 0.000000000000005 * Dot(x, x)
  {
    hide Dot, Minus, BudgetFor, Drift, Defect, WithinDrift, ScaleSurvives, TransformOk;
    var x, b := job.samples, BudgetFor(job.samples, job.policy, num, low);
    var y := Minus(x, d.samples);
    SelfDotNonNegative(y);
    SelfDotNonNegative(b);
    SelfDotNonNegative(x);
    ShippedWithin(low, Dot(y, y), Dot(b, b), Dot(x, x), |x|, job.policy.levels);
  }

  /** For an orthonormal filter, the squared error is at most the squared budget. */
  lemma OrthonormalReports(job: Job, id: u32, d: Decoded, num: Numerics, low: Filter)
    requires Orthonormal(low) && Reports(job, id, d, num, low)
    ensures var x, b := job.samples, BudgetFor(job.samples, job.policy, num, low);
      |d.samples| == |x| && Dot(Minus(x, d.samples), Minus(x, d.samples)) <= Dot(b, b)
  {
    hide Dot, Minus, BudgetFor, Drift, Defect, WithinDrift, ScaleSurvives, Encodable, Orthonormal;
    var x, b := job.samples, BudgetFor(job.samples, job.policy, num, low);
    var y := Minus(x, d.samples);
    ExactWithin(low, Dot(y, y), Dot(b, b), Dot(x, x), job.policy.levels);
  }

  /** Whatever decodes, of what was encoded, reports it. */
  lemma DecodingReports(job: Job, id: u32, representation: seq<byte>, room: nat, num: Numerics, low: Filter)
    requires NonNegative(num) && job.policy.gain >= 0.0 && PlanOf(job, representation, id, num, low)
    requires Decode(representation, room, num, low).Ok?
    ensures Reports(job, id, Decode(representation, room, num, low).value, num, low)
  {
    hide Encodable, ScaleSurvives, Encoded, Decode, Restored, Dot, Minus, BudgetFor, WrittenScale, NonNegative,
      Drift, Defect, WithinDrift, EncodedUnder, ThresholdBits;
    DecodableSurvives(job.samples, id, job.state, job.policy, MAX_REPRESENTATION, room, num, low);
    DecodeEncoded(job.samples, id, job.state, job.policy, MAX_REPRESENTATION, room, num, low);
    DistortionBound(job.samples, job.policy, num, low);
    ReportedPolicy(job, Decode(representation, room, num, low).value, num, low);
  }

  lemma ReportedPolicy(job: Job, d: Decoded, num: Numerics, low: Filter)
    requires Encodable(job.samples, job.policy) && d.thresholdBits == ThresholdBits(job.samples, job.policy, num, low)
    requires d.levels == job.policy.levels && d.quantBits == job.policy.quantBits
    ensures EncodedUnder(d, job.samples, job.policy.levels, job.policy.quantBits, job.policy.gain, num, low)
  {
    hide ForwardTransform, TransformOk, Splits, ThresholdBits;
    AcceptedSplits(|job.samples|, job.policy.levels, MAX_WINDOW);
    ThresholdWord(job.samples, job.policy, num, low);
  }

  /** End to end. For every filter, every run of the sender over any windows, abandoned
      anywhere, and every delivery that loses, duplicates and reorders its packets: each
      completion reports the identity and state of one sent window and samples within the
      codec's budget of that window's; reported windows come in strictly increasing order. */
  lemma ReportedWindowsAreSentWindows(c: Cipher, route: Route, jobs: seq<Job>, plans: seq<Plan>, first: u32,
                                      counters: Counters, schedule: seq<nat>, room: nat, num: Numerics, low: Filter)
    requires Lawful(c) && Fits(plans, first) && Planned(jobs, plans, first, num, low)
    requires NonNegative(num) && forall k :: 0 <= k < |jobs| ==> jobs[k].policy.gain >= 0.0
    requires counters.next + RunFrom(c, route, plans, first, counters).seals < 0x1_0000_0000_0000_0000
    requires var log := RunFrom(c, route, plans, first, counters).sent;
      forall k :: 0 <= k < |schedule| ==> schedule[k] < |log|
    ensures var log := RunFrom(c, route, plans, first, counters).sent;
      var done := Delivered(c, Decoder(room, num, low), FRESH, log, schedule).1;
      (forall k :: 0 <= k < |done| ==> ReportsSent(jobs, first, log, schedule, done[k], num, low))
      && (forall k, l :: 0 <= k < l < |done| ==>
        log[schedule[done[k].step]].id < log[schedule[done[l].step]].id)
  {
    hide Lawful, NonNegative, RunFrom, Delivered, ReportsSent, PlanOf, Decode, CompletesWindow;
    var decode := Decoder(room, num, low);
    CompletedWindowsAreSentWindows(c, decode, route, plans, first, counters, schedule);
    var log := RunFrom(c, route, plans, first, counters).sent;
    var done := Delivered(c, decode, FRESH, log, schedule).1;
    assert log == RunFrom(c, route, plans, first, counters).sent;
    assert done == Delivered(c, decode, FRESH, log, schedule).1;
    forall k | 0 <= k < |done|
      ensures ReportsSent(jobs, first, log, schedule, done[k], num, low)
      ensures done[k].step < |schedule| && schedule[done[k].step] < |log|
    {
      assert CompletesWindow(decode, plans, first, log, schedule, done[k]);
      CompletionReports(jobs, plans, first, log, schedule, done[k], room, num, low);
    }
  }

  /** A completion reports the window whose packet arrived at its step. */
  ghost predicate ReportsSent(jobs: seq<Job>, first: u32, log: seq<Sent>, schedule: seq<nat>,
                              done: Completion<Decoded>, num: Numerics, low: Filter)
  {
    done.step < |schedule| && schedule[done.step] < |log| &&
    var id := log[schedule[done.step]].id;
    first <= id < first + |jobs| && Reports(jobs[id - first], id, done.value, num, low)
  }

  lemma CompletionReports(jobs: seq<Job>, plans: seq<Plan>, first: u32, log: seq<Sent>, schedule: seq<nat>,
                          done: Completion<Decoded>, room: nat, num: Numerics, low: Filter)
    requires Fits(plans, first) && Planned(jobs, plans, first, num, low)
    requires NonNegative(num) && forall k :: 0 <= k < |jobs| ==> jobs[k].policy.gain >= 0.0
    requires CompletesWindow(Decoder(room, num, low), plans, first, log, schedule, done)
    ensures ReportsSent(jobs, first, log, schedule, done, num, low)
    ensures done.step < |schedule| && schedule[done.step] < |log|
  {
    hide NonNegative, Reports, PlanOf, Pieces, Sendable;
    var id := log[schedule[done.step]].id;
    var representation := plans[id - first].representation;
    assert WindowAt(plans, first, id - first).representation == representation;
    if representation == [] {
      EmptyNeverDecodes(room, num, low);
      assert false;
    }
    hide Decode;
    DecodingReports(jobs[id - first], id, representation, room, num, low);
  }

  lemma EmptyNeverDecodes(room: nat, num: Numerics, low: Filter)
    ensures Decode([], room, num, low).Err?
  {
  }

  /** Progress, end to end: a new window that its configuration can send, delivered in order to
      a receiver in any state behind it, is reported with its last block. */
  lemma NewWindowIsReported(c: Cipher, route: Route, job: Job, id: u32, szx: byte, counters: Counters,
                            transport: nat -> Option<Error>, r: Receiver, room: nat, num: Numerics, low: Filter)
    requires Lawful(c) && NonNegative(num) && job.policy.gain >= 0.0 && job.policy.quantBits <= 15
    requires Encodable(job.samples, job.policy) && ScaleSurvives(job.samples, job.policy, num, low)
    requires job.state < STATE_COUNT && room >= |job.samples|
    requires 1 <= szx <= 6 && |route.path| <= MAX_PATH && Segments(route.path) != []
    requires forall k :: transport(k) == None
    requires counters.next + MAX_REPRESENTATION < 0x1_0000_0000_0000_0000
    requires r.replay.initialized ==> r.replay.highest < counters.next
    ensures var e := Encoded(job.samples, id, job.state, job.policy, MAX_REPRESENTATION, num, low);
      e.Ok? && |e.value| <= MAX_REPRESENTATION &&
      var t := SendWindow(c, route, Window(id, e.value, szx), counters, transport);
      var (r', outcomes) := AcceptAll(c, Decoder(room, num, low), r, t.sent);
      t.status == Success && |outcomes| == |t.sent| > 0
      && (forall i :: 0 <= i < |outcomes| - 1 ==> outcomes[i] == More)
      && outcomes[|outcomes| - 1].Complete?
      && Reports(job, id, outcomes[|outcomes| - 1].value, num, low)
  {
    hide Lawful, NonNegative, Reports, Encoded, Decode, SendWindow, AcceptAll, Segments, Chunks, BlockSize,
      TransformOk, ScaleSurvives, Pow2, Close, Restored, Coefficients, WrittenScale, NonzeroTo;
    EncodingSucceeds(job.samples, id, job.state, job.policy, MAX_REPRESENTATION, num, low);
    var bytes := Encoded(job.samples, id, job.state, job.policy, MAX_REPRESENTATION, num, low).value;
    DecodeEncoded(job.samples, id, job.state, job.policy, MAX_REPRESENTATION, room, num, low);
    DecodingReports(job, id, bytes, room, num, low);
    ExponentSizes(szx);
    var w := Window(id, bytes, szx);
    ChunksPartition(bytes, PieceSize(w));
    assert Decoder(room, num, low)(bytes) == Decode(bytes, room, num, low);
    NewWindowCompletes(c, Decoder(room, num, low), route, w, counters, transport, r);
  }

  /** Both providers are lawful, so everything above holds of each. */
  lemma BothProvidersServe(key: u64, g: Providers.Gcm, gcmKey: seq<byte>, base: Providers.NonceBase)
    requires Providers.GcmLaw(g)
    ensures Lawful(Providers.TestCipher(key)) && Lawful(Providers.GcmCipher(g, gcmKey, base))
  {
    Providers.TestCipherLawful(key);
    Providers.GcmCipherLawful(g, gcmKey, base);
  }

  /** What the server answers to a packet of a window: that the request is incomplete when it does
      not continue the transfer, that it is not authorised when it was seen before, and otherwise
      to go on, or, of the last block, whether its window decodes. */
  lemma ServerAnswers(c: Cipher, w: Window, s: Sent, r: Receiver, num: Numerics, low: Filter)
    requires Lawful(c) && Carries(c, w, s) && |w.representation| <= MAX_REPRESENTATION
    requires var continues := r.active && r.nextBlock == s.block && r.token == BigEndian(w.id, 4);
      s.block == 0 || !continues || r.representation == Flatten(Pieces(w)[..s.block])
    ensures Parse(s.packet).value.szx <= 6 && RequestOk(RequestOf(Parse(s.packet).value))
    ensures var block := RequestBlock(RequestOf(Parse(s.packet).value));
      ResponseTo(c, r, block, AcceptBlock(c, Decoder(MAX_WINDOW, num, low), r, block).1)
      == if s.block > 0 && !(r.active && r.nextBlock == s.block && r.token == BigEndian(w.id, 4)) then Incomplete
         else if r.replay.initialized && s.sequence <= r.replay.highest then Unauthorized
         else if s.block + 1 < |Pieces(w)| then Continue
         else if Decode(w.representation, MAX_WINDOW, num, low).Ok? then Changed
         else BadRequest
  {
    hide Parse, Record, Flatten, Chunks, BlockSize, Aad.Bytes, Decode, SizeExponent;
    var k, pieces := Parse(s.packet).value, Pieces(w);
    ChunksPartition(w.representation, PieceSize(w));
    SequenceOfRecord(c, s.sequence, Aad.Bytes(k), pieces[s.block]);
    ServerActsAsReceiver(c, Decoder(MAX_WINDOW, num, low), r, s.packet);
    SameAad(k);
    OpenSealed(c, r.replay, s.sequence, Aad.Bytes(k), pieces[s.block], MAX_RECORD);
    FlattenStep(pieces, s.block);
    PrefixShort(pieces, s.block + 1);
    if s.block + 1 == |pieces| { assert pieces[..s.block + 1] == pieces; }
  }

  lemma SameAad(k: Block)
    requires k.szx <= 6 && RequestOk(RequestOf(k))
    ensures Aad.Bytes(RequestBlock(RequestOf(k))) == Aad.Bytes(k)
    ensures var b := RequestBlock(RequestOf(k));
      b.number == k.number && b.more == k.more && b.token == k.token && b.payload == k.payload
  {
    hide BlockSize, SizeExponent;
    SizesSmall(k.szx);
  }
}
