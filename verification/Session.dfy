/** Whole sessions of the objects: a pipeline fed window after window, a network between, and a
    receiver fed packet after packet. Their logs and completions are those of the transfer
    protocol, so everything proved end to end holds of them. */
module Session {
  import opened Bits
  import opened Results
  import opened Wavelet
  import opened Coap
  import opened CoapSizes
  import Aad
  import opened Codec
  import opened Fidelity
  import opened Config
  import opened Normalizer
  import Hmm
  import Learning
  import opened Records
  import opened Providers
  import opened Segmentation
  import opened Transfer
  import opened Delivery
  import opened Liveness
  import opened Pipeline
  import opened Receiving
  import opened EndToEnd

  /** One call of the pipeline: samples, measurements, and what the transport will answer. */
  datatype Input = Input(samples: seq<real>, metrics: Readings, transport: nat -> Option<Error>)

  /** The calls that are not refused outright. */
  predicate Usable(input: Input, size: nat) {
    |input.samples| == size && AllFinite(input.metrics)
  }

  function Accepted(inputs: seq<Input>, size: nat): seq<Input>
    decreases |inputs|
  {
    if inputs == [] then []
    else
      var n := |inputs| - 1;
      Accepted(inputs[..n], size) + if Usable(inputs[n], size) then [inputs[n]] else []
  }

  // ----- the jobs of a run -----

  /** The job that window k becomes: its samples under the policy of the state inferred from the
      scores so far. */
  function JobFor(config: Settings, h: Hmm.Model, scores: seq<Vector>, m: Hmm.Libm, samples: seq<real>): Job
    requires Shaped(config) && Config.Valid(config) && Hmm.Learnable(h) && m.tiny > 0.0
  {
    var state := Learning.Run(h, scores, m).state;
    Job(samples, state, PolicyFor(config, state))
  }

  /** Every accepted input is a job, in order, under the state reported for it. */
  predicate JobsOf(config: Settings, h: Hmm.Model, inputs: seq<Input>, scores: seq<Vector>, m: Hmm.Libm, jobs: seq<Job>)
    requires Shaped(config) && Config.Valid(config) && Hmm.Learnable(h) && m.tiny > 0.0
  {
    |jobs| == |scores| == |inputs| && forall k :: 0 <= k < |jobs| ==>
      jobs[k] == JobFor(config, h, scores[..k + 1], m, inputs[k].samples)
      && |inputs[k].samples| == config.windowSize
  }

  /** Every plan sends what its job encodes to, in blocks of its state's size, over the transport
      of its input. */
  ghost predicate PlansOf(config: Settings, inputs: seq<Input>, jobs: seq<Job>, plans: seq<Plan>, first: u32,
                    num: Numerics, low: Filter)
    requires Shaped(config)
  {
    |plans| == |jobs| == |inputs| && Planned(jobs, plans, first, num, low)
    && forall k :: 0 <= k < |jobs| ==>
      jobs[k].state < STATES && plans[k].szx == config.blockSzx[jobs[k].state]
      && plans[k].transport == inputs[k].transport && plans[k].representation != []
  }

  /** One more window: its encoding succeeds, and what is sent extends the run by one plan. */
  lemma OneMorePlan(c: Cipher, config: Settings, route: Route, inputs: seq<Input>, jobs: seq<Job>, plans: seq<Plan>,
                    first: u32, counters: Counters, input: Input, state: Hmm.State, report: Report, there: Counters,
                    num: Numerics, low: Filter)
      returns (plan: Plan)
    requires Shaped(config) && Config.Valid(config) && route == Route(config.uriPath, config.contentFormat)
    requires |plans| == |jobs| && first + |plans| < 0x1_0000_0000 && Fits(plans, first)
    requires PlansOf(config, inputs, jobs, plans, first, num, low) && |input.samples| == config.windowSize
    requires (report, there)
      == Sending(c, config, input.samples, first + |plans|, state, RunFrom(c, route, plans, first, counters).counters,
                 input.transport, num, low)
    ensures Fits(plans + [plan], first)
    ensures PlansOf(config, inputs + [input], jobs + [Job(input.samples, state, PolicyFor(config, state))],
                    plans + [plan], first, num, low)
    ensures RunFrom(c, route, plans + [plan], first, counters).sent
         == RunFrom(c, route, plans, first, counters).sent + report.sent
    ensures RunFrom(c, route, plans + [plan], first, counters).counters == there
  {
    hide Encoded, SendWindow, IsPowerOfTwo, Coefficients, NonzeroTo, TransformOk, RunFrom;
    var id: u32 := first + |plans|;
    var policy := PolicyFor(config, state);
    ValidWindowEncodes(config, state, input.samples);
    EncodingSucceeds(input.samples, id, state, policy, MAX_REPRESENTATION, num, low);
    var bytes := Encoded(input.samples, id, state, policy, MAX_REPRESENTATION, num, low).value;
    plan := Plan(bytes, config.blockSzx[state], input.transport);
    RunStep(c, route, plans, plan, first, counters);
  }

  lemma RunStep(c: Cipher, route: Route, plans: seq<Plan>, plan: Plan, first: u32, counters: Counters)
    requires first + |plans| < 0x1_0000_0000 && Fits(plans, first) && |plan.representation| <= MAX_REPRESENTATION
    ensures Fits(plans + [plan], first)
    ensures var before := RunFrom(c, route, plans, first, counters);
      var last := SendWindow(c, route, Window(first + |plans|, plan.representation, plan.szx), before.counters,
                             plan.transport);
      RunFrom(c, route, plans + [plan], first, counters)
      == Trace(last.status, last.counters, before.sent + last.sent, before.seals + last.seals)
  {
    hide SendWindow;
    assert (plans + [plan])[..|plans|] == plans;
  }

  lemma RunOn(h: Hmm.Model, scores: seq<Vector>, x: Vector, m: Hmm.Libm)
    requires Hmm.Learnable(h) && m.tiny > 0.0
    ensures Learning.Run(h, scores + [x], m) == Hmm.Step(Learning.Run(h, scores, m), x, m)
  {
    hide Hmm.Step;
    assert (scores + [x])[..|scores|] == scores;
  }

  lemma JobsOn(config: Settings, h: Hmm.Model, inputs: seq<Input>, scores: seq<Vector>, m: Hmm.Libm, jobs: seq<Job>,
               input: Input, x: Vector)
    requires Shaped(config) && Config.Valid(config) && Hmm.Learnable(h) && m.tiny > 0.0
    requires JobsOf(config, h, inputs, scores, m, jobs) && |input.samples| == config.windowSize
    ensures JobsOf(config, h, inputs + [input], scores + [x], m,
                   jobs + [JobFor(config, h, scores + [x], m, input.samples)])
  {
    hide JobFor, IsPowerOfTwo;
    var more := scores + [x];
    assert more[..|jobs| + 1] == more;
    forall k | 0 <= k < |jobs|
      ensures JobFor(config, h, more[..k + 1], m, inputs[k].samples)
           == JobFor(config, h, scores[..k + 1], m, inputs[k].samples)
    {
      assert more[..k + 1] == scores[..k + 1];
    }
  }

  // ----- the sender -----

  /** What a pipeline has been fed: the accepted inputs, the scores its model saw for them, and
      the jobs and plans they became. */
  ghost predicate Fed(config: Settings, h: Hmm.Model, inputs: seq<Input>, scores: seq<Vector>, m: Hmm.Libm,
                      jobs: seq<Job>, plans: seq<Plan>, first: u32, num: Numerics, low: Filter)
    requires Shaped(config) && Config.Valid(config) && Hmm.Learnable(h) && m.tiny > 0.0
  {
    JobsOf(config, h, inputs, scores, m, jobs) && PlansOf(config, inputs, jobs, plans, first, num, low)
    && Fits(plans, first) && forall k :: 0 <= k < |scores| ==> Learning.Scores(scores[k])
  }

  /** One more accepted input, and what the pipeline reported for it. */
  lemma FedMore(c: Cipher, config: Settings, route: Route, h: Hmm.Model, inputs: seq<Input>, scores: seq<Vector>,
                m: Hmm.Libm, jobs: seq<Job>, plans: seq<Plan>, first: u32, counters: Counters, input: Input, x: Vector,
                report: Report, there: Counters, num: Numerics, low: Filter)
      returns (job: Job, plan: Plan)
    requires Shaped(config) && Config.Valid(config) && Hmm.Learnable(h) && m.tiny > 0.0
    requires route == Route(config.uriPath, config.contentFormat) && first + |plans| < 0x1_0000_0000
    requires Fits(plans, first) && Fed(config, h, inputs, scores, m, jobs, plans, first, num, low)
    requires |input.samples| == config.windowSize && Learning.Scores(x)
    requires (report, there)
      == Sending(c, config, input.samples, first + |plans|, Hmm.Step(Learning.Run(h, scores, m), x, m).state,
                 RunFrom(c, route, plans, first, counters).counters, input.transport, num, low)
    ensures Fits(plans + [plan], first)
    ensures Fed(config, h, inputs + [input], scores + [x], m, jobs + [job], plans + [plan], first, num, low)
    ensures RunFrom(c, route, plans + [plan], first, counters).sent
         == RunFrom(c, route, plans, first, counters).sent + report.sent
    ensures RunFrom(c, route, plans + [plan], first, counters).counters == there
  {
    hide RunFrom, Sending, Hmm.Step, Hmm.Learnable, IsPowerOfTwo, PlansOf, JobsOf, Learning.Run, Learning.Scores;
    RunOn(h, scores, x, m);
    JobsOn(config, h, inputs, scores, m, jobs, input, x);
    job := JobFor(config, h, scores + [x], m, input.samples);
    SameSizes(config, inputs, jobs, plans, first, num, low);
    plan := OneMorePlan(c, config, route, inputs, jobs, plans, first, counters, input, job.state, report, there,
                        num, low);
  }

  lemma SameSizes(config: Settings, inputs: seq<Input>, jobs: seq<Job>, plans: seq<Plan>, first: u32,
                  num: Numerics, low: Filter)
    requires Shaped(config) && PlansOf(config, inputs, jobs, plans, first, num, low)
    ensures |plans| == |jobs| == |inputs|
  {
    hide Planned;
  }

  /** Feeding a pipeline: what it hands to the transport is the log of a run of plans, one for
      each accepted input, encoded under the states its model infers. */
  method Feed(p: TelemetryPipeline, inputs: seq<Input>, sqrt: real -> real, m: Hmm.Libm, num: Numerics, low: Filter)
    returns (sent: seq<Sent>, ghost scores: seq<Vector>, ghost jobs: seq<Job>, ghost plans: seq<Plan>)
    requires p.Valid() && p.normalizer.epsilon >= 0.0 && Root(sqrt) && m.tiny > 0.0
    requires p.nextWindowId + |inputs| <= 0x1_0000_0000
    modifies p, p.normalizer, p.hmm, p.security`txSequence
    ensures p.Valid()
    ensures p.hmm.View() == Learning.Run(old(p.hmm.View()), scores, m)
    ensures Fed(p.config, old(p.hmm.View()), Accepted(inputs, p.config.windowSize), scores, m, jobs, plans,
                old(p.nextWindowId), num, low)
    ensures Fits(plans, old(p.nextWindowId))
    ensures var t := RunFrom(TestCipher(p.security.txKey), p.RouteHere(), plans, old(p.nextWindowId), old(p.Here()));
      sent == t.sent && p.Here() == t.counters
  {
    hide RunFrom, Sending, Hmm.Step, Hmm.Learnable, IsPowerOfTwo, TestCipher, Accounts, Fed, AllFinite, Learning.Run,
      Accepted, Fits, SentUnder, Config.Valid, OnlineNormalizer.Valid, OnlineNormalizer.Rootable,
      OnlineNormalizer.ScoresFor;
    ghost var c, route, first, h := TestCipher(p.security.txKey), p.RouteHere(), p.nextWindowId, p.hmm.View();
    ghost var size, start := p.config.windowSize, p.Here();
    sent, scores, jobs, plans := [], [], [], [];
    NothingFed(c, route, p.config, h, first, start, m, num, low);
    assert inputs[..0] == [];
    NothingAccepted(size);
    for i := 0 to |inputs|
      invariant p.Valid() && |plans| <= i && p.nextWindowId == (first + |plans|) % 0x1_0000_0000
      invariant Hmm.Learnable(h) && p.hmm.View() == Learning.Run(h, scores, m)
      invariant Fed(p.config, h, Accepted(inputs[..i], size), scores, m, jobs, plans, first, num, low)
      invariant Fits(plans, first)
      invariant RunFrom(c, route, plans, first, start).sent == sent
      invariant RunFrom(c, route, plans, first, start).counters == p.Here()
    {
      AcceptedStep(inputs, i, size);
      FloorRoots(p.normalizer);
      var report, x, stats := p.Process(inputs[i].samples, inputs[i].metrics, inputs[i].transport, sqrt, m, num, low);
      if Usable(inputs[i], size) {
        ghost var job, plan := FedMore(c, p.config, route, h, Accepted(inputs[..i], size), scores, m, jobs, plans,
                                       first, start, inputs[i], x, report, p.Here(), num, low);
        RunOn(h, scores, x, m);
        scores, jobs, plans := scores + [x], jobs + [job], plans + [plan];
      } else {
        assert Accepted(inputs[..i], size) + [] == Accepted(inputs[..i], size);
        assert sent + [] == sent;
      }
      sent := sent + report.sent;
    }
    assert inputs[..|inputs|] == inputs;
  }

  lemma NothingAccepted(size: nat)
    ensures Accepted([], size) == []
  {
  }

  lemma NothingFed(c: Cipher, route: Route, config: Settings, h: Hmm.Model, first: u32, counters: Counters, m: Hmm.Libm,
                   num: Numerics, low: Filter)
    requires Shaped(config) && Config.Valid(config) && Hmm.Learnable(h) && m.tiny > 0.0
    ensures Fits([], first) && RunFrom(c, route, [], first, counters) == Trace(Success, counters, [], 0)
    ensures Fed(config, h, [], [], m, [], [], first, num, low) && Learning.Run(h, [], m) == h
  {
    hide IsPowerOfTwo, Hmm.Learnable;
  }

  lemma AcceptedStep(inputs: seq<Input>, i: nat, size: nat)
    requires i < |inputs|
    ensures Accepted(inputs[..i + 1], size)
         == Accepted(inputs[..i], size) + if Usable(inputs[i], size) then [inputs[i]] else []
  {
    assert inputs[..i + 1][..i] == inputs[..i];
  }

  // ----- the receiver -----

  /** Feeding a receiver: its completions are those of the protocol, for any schedule. */
  method Receive(r: TelemetryReceiver, log: seq<Sent>, schedule: seq<nat>, samples: array<real>,
                 num: Numerics, low: Filter) returns (done: seq<Completion<Decoded>>)
    requires r.Valid() && forall k :: 0 <= k < |schedule| ==> schedule[k] < |log|
    modifies r, r.representation, samples, r.security`rxHighest, r.security`rxInitialized
    ensures r.Valid()
    ensures (r.View(), done)
      == Delivered(TestCipher(r.security.rxKey), Decoder(samples.Length, num, low), old(r.View()), log, schedule)
  {
    hide Transfer.Accept, Delivered, TestCipher, Decoder;
    ghost var c, decode, start := TestCipher(r.security.rxKey), Decoder(samples.Length, num, low), r.View();
    done := [];
    NothingDelivered(c, decode, start, log);
    for i := 0 to |schedule|
      invariant r.Valid()
      invariant (r.View(), done) == Delivered(c, decode, start, log, schedule[..i])
    {
      ghost var before := r.View();
      var o := r.Accept(log[schedule[i]].packet, samples, num, low);
      DeliveredStep(c, decode, start, log, schedule, i);
      if o.Complete? {
        done := done + [Completion(i, r.representation[..r.representationLength], o.value)];
      }
    }
    assert schedule[..|schedule|] == schedule;
  }

  lemma NothingDelivered<D>(c: Cipher, decode: seq<byte> -> Result<D>, r: Receiver, log: seq<Sent>)
    ensures Delivered(c, decode, r, log, []) == (r, [])
  {
  }

  lemma DeliveredStep<D>(c: Cipher, decode: seq<byte> -> Result<D>, r: Receiver, log: seq<Sent>, schedule: seq<nat>,
                         i: nat)
    requires i < |schedule| && forall k :: 0 <= k < |schedule| ==> schedule[k] < |log|
    ensures var (before, done) := Delivered(c, decode, r, log, schedule[..i]);
      var (after, o) := Transfer.Accept(c, decode, before, log[schedule[i]].packet);
      Delivered(c, decode, r, log, schedule[..i + 1])
      == (after, if o.Complete? then done + [Completion(i, after.representation, o.value)] else done)
  {
    hide Transfer.Accept;
    assert schedule[..i + 1][..i] == schedule[..i];
  }

  // ----- a whole session -----

  lemma {:induction false} LoopSeals(c: Cipher, route: Route, w: Window, size1: u32, rest: seq<byte>, b: nat,
                                     count: nat, counters: Counters, transport: nat -> Option<Error>)
    requires Sendable(w) && b <= count <= MAX_REPRESENTATION
    ensures SendFrom(c, route, w, size1, rest, b, count, counters, transport).seals <= count - b
    decreases count - b
  {
    hide Build, Seal, BlockSize, Aad.Bytes;
    if b == count {
    } else {
      var n := if |rest| < PieceSize(w) then |rest| else PieceSize(w);
      var block := HeaderBlock(route, w, counters.message, b, b + 1 < count, size1);
      var next := Seal(c, counters.next, Aad.Bytes(block), rest[..n], MAX_RECORD).0;
      LoopSeals(c, route, w, size1, rest[n..], b + 1, count, Counters(NextMessage(counters.message), next), transport);
    }
  }

  /** A run seals at most one record per byte of representation, so a session of fewer than 2^32
      windows stays far below 2^64 seals. */
  lemma {:induction false} RunSeals(c: Cipher, route: Route, plans: seq<Plan>, first: u32, counters: Counters)
    requires Fits(plans, first)
    ensures RunFrom(c, route, plans, first, counters).seals <= MAX_REPRESENTATION * |plans|
    decreases |plans|
  {
    hide SendFrom, BlockCount, Chunks;
    if plans == [] {
    } else {
      var n := |plans| - 1;
      RunSeals(c, route, plans[..n], first, counters);
      var w, before := WindowAt(plans, first, n), RunFrom(c, route, plans[..n], first, counters).counters;
      if Sendable(w) {
        ChunksPartition(w.representation, PieceSize(w));
        if Size1Of(w) <= 0xffff_ffff {
          LoopSeals(c, route, w, Size1Of(w), w.representation, 0, BlockCount(|w.representation|, PieceSize(w)), before,
                    plans[n].transport);
        }
      }
    }
  }

  /** A network hands over, any number of times and in any order, packets that were sent. */
  ghost predicate DeliversOnly(network: seq<Sent> -> seq<nat>) {
    forall log, k :: 0 <= k < |network(log)| ==> network(log)[k] < |log|
  }

  /** Every job has the policy of its state. */
  predicate Configured(config: Settings, jobs: seq<Job>)
    requires Shaped(config)
  {
    forall k :: 0 <= k < |jobs| ==> jobs[k].state < STATES && jobs[k].policy == PolicyFor(config, jobs[k].state)
  }

  /** What was received of window x was encoded at the depth of the configuration, and at the
      width and with the gain that it gives the received state. */
  ghost predicate UnderConfiguration(config: Settings, x: seq<real>, d: Decoded, num: Numerics, low: Filter)
    requires Shaped(config)
  {
    d.state < STATES
    && EncodedUnder(d, x, config.waveletLevels, config.quantBits[d.state], config.thresholdGain[d.state], num, low)
  }

  /** A completion reports the window whose packet arrived at its step, under its configuration. */
  ghost predicate ReportsUnder(config: Settings, jobs: seq<Job>, first: u32, log: seq<Sent>, schedule: seq<nat>,
                               done: Completion<Decoded>, num: Numerics, low: Filter)
    requires Shaped(config)
  {
    ReportsSent(jobs, first, log, schedule, done, num, low)
    && UnderConfiguration(config, jobs[log[schedule[done.step]].id - first].samples, done.value, num, low)
  }

  lemma ConfiguredReport(config: Settings, jobs: seq<Job>, first: u32, log: seq<Sent>, schedule: seq<nat>,
                         done: Completion<Decoded>, num: Numerics, low: Filter)
    requires Shaped(config) && Configured(config, jobs)
    requires ReportsSent(jobs, first, log, schedule, done, num, low)
    ensures ReportsUnder(config, jobs, first, log, schedule, done, num, low)
  {
    hide EncodedUnder, Close, Encodable, ScaleSurvives;
  }

  lemma FedPlans(config: Settings, h: Hmm.Model, inputs: seq<Input>, scores: seq<Vector>, m: Hmm.Libm, jobs: seq<Job>,
                 plans: seq<Plan>, first: u32, num: Numerics, low: Filter)
    requires Shaped(config) && Config.Valid(config) && Hmm.Learnable(h) && m.tiny > 0.0
    requires Fed(config, h, inputs, scores, m, jobs, plans, first, num, low)
    ensures JobsOf(config, h, inputs, scores, m, jobs) && Planned(jobs, plans, first, num, low)
    ensures Configured(config, jobs) && forall k :: 0 <= k < |jobs| ==> jobs[k].policy.gain >= 0.0
  {
    hide IsPowerOfTwo, Learning.Run, Planned, Fits, Hmm.Learnable;
    forall k | 0 <= k < |jobs|
      ensures jobs[k].policy.gain >= 0.0
    {
      assert StateOk(config, jobs[k].state);
    }
  }

  /** All completions report sent windows under their configuration, in strictly increasing
      order. */
  ghost predicate AllReported(config: Settings, jobs: seq<Job>, first: u32, log: seq<Sent>, schedule: seq<nat>,
                              done: seq<Completion<Decoded>>, num: Numerics, low: Filter)
    requires Shaped(config)
  {
    (forall k :: 0 <= k < |done| ==> ReportsUnder(config, jobs, first, log, schedule, done[k], num, low))
    && (forall k, l :: 0 <= k < l < |done| ==> log[schedule[done[k].step]].id < log[schedule[done[l].step]].id)
  }

  lemma SessionReports(c: Cipher, config: Settings, route: Route, jobs: seq<Job>, plans: seq<Plan>, counters: Counters,
                       log: seq<Sent>, schedule: seq<nat>, r: Receiver, done: seq<Completion<Decoded>>,
                       num: Numerics, low: Filter)
    requires Lawful(c) && Fits(plans, 1) && Planned(jobs, plans, 1, num, low) && counters.next == 0
    requires Shaped(config) && Configured(config, jobs)
    requires NonNegative(num) && forall k :: 0 <= k < |jobs| ==> jobs[k].policy.gain >= 0.0
    requires log == RunFrom(c, route, plans, 1, counters).sent
    requires forall k :: 0 <= k < |schedule| ==> schedule[k] < |log|
    requires (r, done) == Delivered(c, Decoder(MAX_WINDOW, num, low), FRESH, log, schedule)
    ensures AllReported(config, jobs, 1, log, schedule, done, num, low)
  {
    hide Lawful, NonNegative, RunFrom, Delivered, ReportsSent, Planned, ReportsUnder, Configured;
    RunSeals(c, route, plans, 1, counters);
    assert |plans| < 0x1_0000_0000;
    ReportedWindowsAreSentWindows(c, route, jobs, plans, 1, counters, schedule, MAX_WINDOW, num, low);
    forall k | 0 <= k < |done|
      ensures ReportsUnder(config, jobs, 1, log, schedule, done[k], num, low)
    {
      ConfiguredReport(config, jobs, 1, log, schedule, done[k], num, low);
    }
  }

  // ----- a session in which nothing fails -----

  /** No transport fails, every block size holds more than the record overhead, and the path
      names something. */
  ghost predicate NothingFails(config: Settings, inputs: seq<Input>)
    requires Shaped(config)
  {
    |config.uriPath| <= MAX_PATH && Segments(config.uriPath) != []
    && (forall s :: 0 <= s < STATES ==> config.blockSzx[s] >= 1)
    && forall k, b :: 0 <= k < |inputs| ==> inputs[k].transport(b) == None
  }

  ghost predicate AllSurvive(jobs: seq<Job>, num: Numerics, low: Filter) {
    forall k :: 0 <= k < |jobs| ==>
      Encodable(jobs[k].samples, jobs[k].policy) && ScaleSurvives(jobs[k].samples, jobs[k].policy, num, low)
  }

  /** Nothing fails, every scale survives, and every packet is delivered once, in order. */
  ghost predicate Undisturbed(config: Settings, inputs: seq<Input>, jobs: seq<Job>, log: seq<Sent>, schedule: seq<nat>,
                              num: Numerics, low: Filter)
    requires Shaped(config)
  {
    NothingFails(config, inputs) && AllSurvive(jobs, num, low) && schedule == OnceInOrder(|log|)
  }

  /** One completion for every job, in order, reporting it. */
  ghost predicate EachReported(config: Settings, jobs: seq<Job>, first: u32, done: seq<Completion<Decoded>>,
                               num: Numerics, low: Filter)
    requires Shaped(config)
  {
    |done| == |jobs| && first + |jobs| <= 0x1_0000_0000
    && forall k :: 0 <= k < |done| ==>
      Reports(jobs[k], first + k, done[k].value, num, low)
      && UnderConfiguration(config, jobs[k].samples, done[k].value, num, low)
  }

  lemma FedGoes(config: Settings, h: Hmm.Model, inputs: seq<Input>, scores: seq<Vector>, m: Hmm.Libm, jobs: seq<Job>,
                plans: seq<Plan>, first: u32, num: Numerics, low: Filter, k: nat)
    requires Shaped(config) && Config.Valid(config) && Hmm.Learnable(h) && m.tiny > 0.0
    requires Fed(config, h, inputs, scores, m, jobs, plans, first, num, low)
    requires NothingFails(config, inputs) && AllSurvive(jobs, num, low) && k < |plans| == |jobs|
    ensures Goes(plans[k]) && Decode(plans[k].representation, MAX_WINDOW, num, low).Ok?
  {
    hide IsPowerOfTwo, Learning.Run, Hmm.Learnable, Encoded, Decode, ScaleSurvives, Coefficients, NonzeroTo,
      TransformOk, Restored, WrittenScale, Segments;
    var job := jobs[k];
    assert StateOk(config, job.state);
    assert inputs[k].transport == plans[k].transport;
    PlanSamples(config, h, inputs, scores, m, jobs, k);
    DecodeEncoded(job.samples, first + k, job.state, job.policy, MAX_REPRESENTATION, MAX_WINDOW, num, low);
  }

  lemma PlanSamples(config: Settings, h: Hmm.Model, inputs: seq<Input>, scores: seq<Vector>, m: Hmm.Libm,
                    jobs: seq<Job>, k: nat)
    requires Shaped(config) && Config.Valid(config) && Hmm.Learnable(h) && m.tiny > 0.0
    requires JobsOf(config, h, inputs, scores, m, jobs) && k < |jobs|
    ensures |jobs[k].samples| <= MAX_WINDOW && jobs[k].state < STATES
    ensures jobs[k].policy == PolicyFor(config, jobs[k].state)
  {
    hide IsPowerOfTwo, Learning.Run, Hmm.Learnable;
  }

  /** Liveness of a session: when nothing fails and the network delivers every packet once, in
      order, there is exactly one completion for every accepted input, in order, and it reports
      that input. */
  lemma SessionCompletes(c: Cipher, config: Settings, h: Hmm.Model, inputs: seq<Input>, scores: seq<Vector>,
                         m: Hmm.Libm, jobs: seq<Job>, plans: seq<Plan>, counters: Counters, log: seq<Sent>,
                         schedule: seq<nat>, done: seq<Completion<Decoded>>, num: Numerics, low: Filter)
    requires Shaped(config) && Config.Valid(config) && Hmm.Learnable(h) && m.tiny > 0.0
    requires Lawful(c) && NonNegative(num) && Fits(plans, 1) && counters.next == 0
    requires Fed(config, h, inputs, scores, m, jobs, plans, 1, num, low)
    requires Undisturbed(config, inputs, jobs, log, schedule, num, low)
    requires log == RunFrom(c, Route(config.uriPath, config.contentFormat), plans, 1, counters).sent
    requires forall k :: 0 <= k < |schedule| ==> schedule[k] < |log|
    requires done == Delivered(c, Decoder(MAX_WINDOW, num, low), FRESH, log, schedule).1
    ensures EachReported(config, jobs, 1, done, num, low)
  {
    hide Fed, AllSurvive, IsPowerOfTwo, Hmm.Learnable, RunFrom, Delivered, Lawful, NonNegative, Planned,
      EachReported, AllGo, Fits, Configured;
    FedPlans(config, h, inputs, scores, m, jobs, plans, 1, num, low);
    SameCount(jobs, plans, 1, num, low);
    FedAllGo(config, h, inputs, scores, m, jobs, plans, 1, num, low);
    PlansComplete(c, config, Route(config.uriPath, config.contentFormat), jobs, plans, counters, log, done, num, low);
  }

  /** All plans go out, and what they send decodes. */
  ghost predicate AllGo(plans: seq<Plan>, num: Numerics, low: Filter) {
    forall k :: 0 <= k < |plans| ==> Goes(plans[k]) && Decode(plans[k].representation, MAX_WINDOW, num, low).Ok?
  }

  lemma FedAllGo(config: Settings, h: Hmm.Model, inputs: seq<Input>, scores: seq<Vector>, m: Hmm.Libm, jobs: seq<Job>,
                 plans: seq<Plan>, first: u32, num: Numerics, low: Filter)
    requires Shaped(config) && Config.Valid(config) && Hmm.Learnable(h) && m.tiny > 0.0
    requires Fed(config, h, inputs, scores, m, jobs, plans, first, num, low) && |plans| == |jobs|
    requires NothingFails(config, inputs) && AllSurvive(jobs, num, low)
    ensures AllGo(plans, num, low)
  {
    hide Fed, AllSurvive, IsPowerOfTwo, Hmm.Learnable, NothingFails, Goes, Decode;
    forall k | 0 <= k < |plans|
      ensures Goes(plans[k]) && Decode(plans[k].representation, MAX_WINDOW, num, low).Ok?
    {
      FedGoes(config, h, inputs, scores, m, jobs, plans, first, num, low, k);
    }
  }

  lemma GoingComplete(c: Cipher, route: Route, plans: seq<Plan>, counters: Counters, num: Numerics, low: Filter)
    requires Lawful(c) && Fits(plans, 1) && counters.next == 0 && |plans| < 0x1_0000_0000
    requires |route.path| <= MAX_PATH && Segments(route.path) != [] && AllGo(plans, num, low)
    ensures var log := RunFrom(c, route, plans, 1, counters).sent;
      var done := Delivered(c, Decoder(MAX_WINDOW, num, low), FRESH, log, OnceInOrder(|log|)).1;
      |done| == |plans| && forall k :: 0 <= k < |done| ==> IsOf(log, OnceInOrder(|log|), done[k], 1 + k)
  {
    hide Goes, RunFrom, Delivered, Lawful, Decode, IsOf, Segments;
    RunSeals(c, route, plans, 1, counters);
    AllComplete(c, Decoder(MAX_WINDOW, num, low), route, plans, 1, counters);
  }

  lemma PlansComplete(c: Cipher, config: Settings, route: Route, jobs: seq<Job>, plans: seq<Plan>, counters: Counters,
                      log: seq<Sent>, done: seq<Completion<Decoded>>, num: Numerics, low: Filter)
    requires Lawful(c) && NonNegative(num) && Fits(plans, 1) && counters.next == 0
    requires Planned(jobs, plans, 1, num, low) && |jobs| == |plans| < 0x1_0000_0000
    requires Shaped(config) && Configured(config, jobs)
    requires forall k :: 0 <= k < |jobs| ==> jobs[k].policy.gain >= 0.0
    requires |route.path| <= MAX_PATH && Segments(route.path) != [] && AllGo(plans, num, low)
    requires log == RunFrom(c, route, plans, 1, counters).sent
    requires done == Delivered(c, Decoder(MAX_WINDOW, num, low), FRESH, log, OnceInOrder(|log|)).1
    ensures EachReported(config, jobs, 1, done, num, low)
  {
    hide AllGo, RunFrom, Delivered, Lawful, NonNegative, Planned, IsOf, Segments, Decoder, Fits, OnceInOrder,
      Configured, AllReported, EachReported;
    var schedule := OnceInOrder(|log|);
    GoingComplete(c, route, plans, counters, num, low);
    SessionReports(c, config, route, jobs, plans, counters, log, schedule,
                   Delivered(c, Decoder(MAX_WINDOW, num, low), FRESH, log, schedule).0, done, num, low);
    ReportedEach(config, jobs, log, schedule, done, num, low);
  }

  lemma ReportedEach(config: Settings, jobs: seq<Job>, log: seq<Sent>, schedule: seq<nat>,
                     done: seq<Completion<Decoded>>, num: Numerics, low: Filter)
    requires Shaped(config) && AllReported(config, jobs, 1, log, schedule, done, num, low)
    requires |done| == |jobs| < 0x1_0000_0000
    requires forall k :: 0 <= k < |done| ==> IsOf(log, schedule, done[k], 1 + k)
    ensures EachReported(config, jobs, 1, done, num, low)
  {
    hide Reports, ReportsUnder, UnderConfiguration, IsOf;
    forall k | 0 <= k < |done|
      ensures Reports(jobs[k], 1 + k, done[k].value, num, low)
      ensures UnderConfiguration(config, jobs[k].samples, done[k].value, num, low)
    {
      ReportsThat(config, jobs, 1, log, schedule, done[k], 1 + k, num, low);
    }
  }

  lemma SameCount(jobs: seq<Job>, plans: seq<Plan>, first: u32, num: Numerics, low: Filter)
    requires Planned(jobs, plans, first, num, low)
    ensures |jobs| == |plans| && first + |plans| <= 0x1_0000_0000
  {
  }

  lemma ReportsThat(config: Settings, jobs: seq<Job>, first: u32, log: seq<Sent>, schedule: seq<nat>,
                    done: Completion<Decoded>, id: u32, num: Numerics, low: Filter)
    requires Shaped(config) && ReportsUnder(config, jobs, first, log, schedule, done, num, low)
    requires IsOf(log, schedule, done, id)
    ensures first <= id < first + |jobs| && Reports(jobs[id - first], id, done.value, num, low)
    ensures UnderConfiguration(config, jobs[id - first].samples, done.value, num, low)
  {
    hide Reports, UnderConfiguration;
  }

  /** A session between the two ends of a freshly keyed pair, from configuration to reported
      windows. What is sent and completed is what the protocol sends and completes; for all
      inputs and networks every completion reports one of the windows that went in, in strictly
      increasing order; and when nothing fails, each of them is reported exactly once. */
  method Session(config: Settings, seed: u64, inputs: seq<Input>, network: seq<Sent> -> seq<nat>,
                 sqrt: real -> real, m: Hmm.Libm, num: Numerics, low: Filter)
    returns (sent: seq<Sent>, done: seq<Completion<Decoded>>, ghost scores: seq<Vector>, ghost jobs: seq<Job>,
             ghost plans: seq<Plan>)
    requires Shaped(config) && Config.Valid(config) && config.baselineEpsilon >= 0.0
    requires Root(sqrt) && m.tiny > 0.0 && NonNegative(num) && DeliversOnly(network) && |inputs| < 0xffff_ffff
    ensures Hmm.Startable(config) && Hmm.Learnable(Hmm.Initial(config, m)) && Fits(plans, 1)
    ensures Fed(config, Hmm.Initial(config, m), Accepted(inputs, config.windowSize), scores, m, jobs, plans, 1,
                num, low)
    ensures sent == RunFrom(TestCipher(ClientToServer(seed)), Route(config.uriPath, config.contentFormat), plans, 1,
                            Counters(1, 0)).sent
    ensures done == Delivered(TestCipher(ClientToServer(seed)), Decoder(MAX_WINDOW, num, low), FRESH, sent,
                              network(sent)).1
    ensures AllReported(config, jobs, 1, sent, network(sent), done, num, low)
    ensures Undisturbed(config, Accepted(inputs, config.windowSize), jobs, sent, network(sent), num, low)
      ==> EachReported(config, jobs, 1, done, num, low)
  {
    hide RunFrom, Delivered, IsPowerOfTwo, TestCipher, Decoder, Fed, JobsOf, AllReported, EachReported, Undisturbed,
      OnceInOrder, Configured, Hmm.Initial, Hmm.Learnable, Learning.Run, Fits, Lawful, Planned, NonNegative, Accepted,
      ClientToServer;
    var client, server := TestPair(seed);
    TestCipherLawful(client.txKey);
    var p := new TelemetryPipeline(config, client, m);
    ghost var c, route, counters := TestCipher(client.txKey), p.RouteHere(), p.Here();
    sent, scores, jobs, plans := Feed(p, inputs, sqrt, m, num, low);
    var r := new TelemetryReceiver(server);
    var samples := new real[MAX_WINDOW];
    done := Receive(r, sent, network(sent), samples, num, low);
    FedPlans(config, Hmm.Initial(config, m), Accepted(inputs, config.windowSize), scores, m, jobs, plans, 1, num, low);
    SessionReports(c, config, route, jobs, plans, counters, sent, network(sent), r.View(), done, num, low);
    ghost var accepted := Accepted(inputs, config.windowSize);
    if Undisturbed(config, accepted, jobs, sent, network(sent), num, low) {
      SessionCompletes(c, config, Hmm.Initial(config, m), accepted, scores, m, jobs, plans, counters, sent,
                       network(sent), done, num, low);
    }
  }
}
