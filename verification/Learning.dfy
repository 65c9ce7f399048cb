/** The learned quantities over whole runs: beliefs and transition rows stay distributions,
    forbidden transitions stay at zero, emissions stay within explicit bounds. */
module Learning {
  import opened Reals
  import opened Config
  import opened Hmm
  import opened Recovery

  predicate Stochastic(v: Vector) {
    (forall i :: 0 <= i < 5 ==> v[i] >= 0.0) && Sum(v) == 1.0
  }

  // ----- runs -----

  lemma StepKeepsLearnable(h: Model, x: Vector, m: Libm)
    requires Learnable(h) && m.tiny > 0.0
    ensures Learnable(Step(h, x, m))
    ensures forall r: State :: Stochastic(Step(h, x, m).transition[r])
  {
    hide NextMeans, NextVariances, Posterior, Candidate, Blended, Select, CountRow, RowSound, Proportions, Smoothed,
      Sum;
    var next := Step(h, x, m);
    forall r: State
      ensures RowSound(next.counts[r], next.prior[r]) && Stochastic(next.transition[r])
    {
      RowStaysSound(h.counts[r], h.prior[r], h.forgetting, r == h.state, next.state, h.smoothing);
      assert next.counts[r] == NextCounts(h, h.state, next.state, r) && next.prior[r] == h.prior[r];
      assert next.transition[r] == NextRow(h, h.state, next.state, r);
      SoundMass(next.counts[r], next.prior[r]);
      ProportionsSum(Smoothed(next.counts[r], h.prior[r], h.smoothing));
    }
  }

  lemma SoundMass(counts: Vector, prior: Vector)
    requires RowSound(counts, prior)
    ensures Sum(counts) > 0.0
  {
  }

  /** The model after any observations, oldest first. */
  function Run(h: Model, xs: seq<Vector>, m: Libm): (r: Model)
    requires Learnable(h) && m.tiny > 0.0
    ensures Learnable(r)
    decreases |xs|
  {
    if xs == [] then h
    else
      var before := Run(h, xs[..|xs| - 1], m);
      StepKeepsLearnable(before, xs[|xs| - 1], m);
      Step(before, xs[|xs| - 1], m)
  }

  function Candidates(h: Model, xs: seq<Vector>, m: Libm): (c: seq<State>)
    requires Learnable(h) && m.tiny > 0.0
    ensures |c| == |xs|
    decreases |xs|
  {
    if xs == [] then []
    else Candidates(h, xs[..|xs| - 1], m) + [Candidate(Run(h, xs[..|xs| - 1], m), xs[|xs| - 1], m)]
  }

  /** The reported states of a run are the outputs of the control machine, so everything proved
      about its runs holds of the model's. */
  lemma {:induction false} RunFollowsControl(h: Model, xs: seq<Vector>, m: Libm)
    requires Learnable(h) && m.tiny > 0.0
    ensures var r := Run(h, xs, m);
      Control(r.state, r.remaining) == After(Control(h.state, h.remaining), h.hold, Candidates(h, xs, m))
      && r.hold == h.hold
    decreases |xs|
  {
    if xs == [] {
    } else {
      hide Candidate, Select, Learnable, NextMeans, NextVariances, NextCounts, NextRow, Blended, Posterior;
      var n := |xs| - 1;
      RunFollowsControl(h, xs[..n], m);
      LearnableRow(Run(h, xs[..n], m), 0);
      var c := Candidates(h, xs, m);
      assert c[..n] == Candidates(h, xs[..n], m);
      assert c[n] == Candidate(Run(h, xs[..n], m), xs[n], m);
    }
  }

  // ----- beliefs -----

  lemma LargestIsMaximal(v: Vector, n: nat)
    requires 1 <= n <= 5
    ensures LargestTo(v, n) < n && forall i :: 0 <= i < n ==> v[i] <= v[LargestTo(v, n)]
  {
    if n == 1 {
    } else {
      LargestIsMaximal(v, n - 1);
    }
  }

  lemma NormalizedStochastic(v: Vector, tiny: real)
    requires tiny > 0.0 && forall i :: 0 <= i < 5 ==> v[i] >= 0.0
    ensures Stochastic(Normalized(v, tiny))
  {
    hide Sum, Proportions;
    if Sum(v) > tiny {
      ProportionsSum(v);
      assert Normalized(v, tiny) == Proportions(v) by { NormalizedIsProportions(v, tiny); }
    } else {
      UniformStochastic();
    }
  }

  lemma UniformStochastic()
    ensures Stochastic([0.2, 0.2, 0.2, 0.2, 0.2])
  {
  }

  lemma NormalizedIsProportions(v: Vector, tiny: real)
    requires 0.0 < tiny < Sum(v)
    ensures Normalized(v, tiny) == Proportions(v)
  {
    hide Sum;
  }

  lemma {:induction false} PredictionNonNegative(belief: Vector, transition: Matrix, j: State, n: nat)
    requires n <= 5 && forall i :: 0 <= i < 5 ==> belief[i] >= 0.0 && transition[i][j] >= 0.0
    ensures PredictTo(belief, transition, j, n) >= 0.0
  {
    hide Times;
    if n == 0 {
    } else {
      PredictionNonNegative(belief, transition, j, n - 1);
      ProductSign(belief[n - 1], transition[n - 1][j]);
    }
  }

  /** No prediction from the belief is negative. */
  predicate PredictionsUsable(h: Model) {
    forall j: State :: PredictTo(h.belief, h.transition, j, 5) >= 0.0
  }

  function Evidences(h: Model, x: Vector, m: Libm): Vector
    requires h.minVariance > 0.0
  {
    [Evidence(h, x, m, 0), Evidence(h, x, m, 1), Evidence(h, x, m, 2), Evidence(h, x, m, 3), Evidence(h, x, m, 4)]
  }

  lemma EvidenceSign(h: Model, x: Vector, m: Libm, j: State)
    requires h.minVariance > 0.0 && Sound(m)
    ensures Evidence(h, x, m, j) >= 0.0 <==> PredictTo(h.belief, h.transition, j, 5) >= 0.0
  {
    hide LogDensity, MaxLogTo, Times, PredictTo;
    var p, e := PredictTo(h.belief, h.transition, j, 5), m.exp(LogDensity(h, j, x, m) - MaxLogTo(h, x, m, 5));
    if p >= 0.0 { ProductSign(p, e); } else { NegativeProduct(p, e); }
  }

  lemma NegativeProduct(p: real, e: real)
    requires p < 0.0 < e
    ensures Times(p, e) < 0.0
  {
  }

  /** The posterior of an observation is a distribution if and only if no prediction is negative
      (or the evidence has no mass, and the uniform distribution replaces it). */
  lemma PosteriorStochasticIff(h: Model, x: Vector, m: Libm)
    requires h.minVariance > 0.0 && Sound(m)
    ensures Stochastic(Posterior(h, x, m)) <==> Sum(Evidences(h, x, m)) <= m.tiny || PredictionsUsable(h)
  {
    hide Sum, Evidence, Normalized, PredictTo;
    var v := Evidences(h, x, m);
    forall j: State
      ensures v[j] >= 0.0 <==> PredictTo(h.belief, h.transition, j, 5) >= 0.0
    {
      EvidenceSign(h, x, m, j);
    }
    if Sum(v) <= m.tiny {
      UniformFallback(v, m.tiny);
      UniformStochastic();
    } else if PredictionsUsable(h) {
      NormalizedStochastic(v, m.tiny);
    } else {
      var j: State :| v[j] < 0.0;
      NegativeRatio(v[j], Sum(v));
      NormalizedAt(v, m.tiny, j);
    }
  }

  lemma NormalizedAt(v: Vector, tiny: real, j: State)
    requires 0.0 < tiny < Sum(v)
    ensures Normalized(v, tiny)[j] == v[j] / Sum(v)
  {
    hide Sum;
  }

  lemma PosteriorStochastic(h: Model, x: Vector, m: Libm)
    requires h.minVariance > 0.0 && Sound(m) && PredictionsUsable(h)
    ensures Stochastic(Posterior(h, x, m))
  {
    PosteriorStochasticIff(h, x, m);
  }

  /** Halving a distribution and adding a half to one entry gives a distribution whose largest
      entry is that one; no renormalisation is lost. */
  lemma BlendedStochastic(posterior: Vector, selected: State, tiny: real)
    requires Stochastic(posterior) && 0.0 < tiny < 1.0
    ensures var b := Blended(posterior, Largest(posterior), selected, tiny);
      Stochastic(b) && forall i :: 0 <= i < 5 ==> b[i] <= b[selected]
  {
    hide Stochastic, Halved, Normalized;
    LargestIsMaximal(posterior, 5);
    HalvedLargest(posterior, selected);
    StochasticSum(Halved(posterior, selected));
    UnitNormalized(Halved(posterior, selected), tiny);
  }

  lemma StochasticSum(v: Vector)
    requires Stochastic(v)
    ensures Sum(v) == 1.0
  {
  }

  lemma HalvedLargest(v: Vector, s: State)
    requires Stochastic(v)
    ensures Stochastic(Halved(v, s))
    ensures forall i :: 0 <= i < 5 ==> Halved(v, s)[i] <= Halved(v, s)[s]
  {
    HalvedSum(v, s);
    StochasticSum(v);
    AtMostOne(v);
    hide Sum;
  }

  lemma AtMostOne(v: Vector)
    requires Stochastic(v)
    ensures forall i :: 0 <= i < 5 ==> 0.0 <= v[i] <= 1.0
  {
  }

  lemma HalvedSum(v: Vector, s: State)
    requires Sum(v) == 1.0
    ensures Sum(Halved(v, s)) == 1.0
  {
  }

  lemma UnitNormalized(v: Vector, tiny: real)
    requires Sum(v) == 1.0 && 0.0 < tiny < 1.0
    ensures Normalized(v, tiny) == v
  {
    hide Sum;
    assert v == [v[0], v[1], v[2], v[3], v[4]];
  }

  lemma MaximumAtLeastFifth(v: Vector, s: State)
    requires Stochastic(v) && forall i :: 0 <= i < 5 ==> v[i] <= v[s]
    ensures v[s] >= 0.2
  {
  }

  /** Beliefs and rows are distributions, and the reported state has the largest belief. */
  predicate Distributed(h: Model) {
    Stochastic(h.belief) && (forall r: State :: Stochastic(h.transition[r]))
    && forall i :: 0 <= i < 5 ==> h.belief[i] <= h.belief[h.state]
  }

  lemma DistributedPredicts(h: Model)
    requires Distributed(h)
    ensures PredictionsUsable(h)
  {
    hide PredictTo, Sum;
    forall j: State
      ensures PredictTo(h.belief, h.transition, j, 5) >= 0.0
    {
      PredictionNonNegative(h.belief, h.transition, j, 5);
    }
  }

  lemma StepDistributes(h: Model, x: Vector, m: Libm)
    requires Learnable(h) && Sound(m) && m.tiny < 1.0 && PredictionsUsable(h)
    ensures Distributed(Step(h, x, m))
  {
    hide Stochastic, Posterior, Blended, Select, NextMeans, NextVariances, NextCounts, NextRow, PredictionsUsable;
    StepKeepsLearnable(h, x, m);
    PosteriorStochastic(h, x, m);
    var (selected, remaining) := Select(h.state, h.remaining, h.hold, Candidate(h, x, m));
    BlendedStochastic(Posterior(h, x, m), selected, m.tiny);
  }

  lemma {:induction false} RunDistributes(h: Model, xs: seq<Vector>, m: Libm)
    requires Learnable(h) && Sound(m) && m.tiny < 1.0 && PredictionsUsable(h)
    ensures PredictionsUsable(Run(h, xs, m)) && (xs != [] ==> Distributed(Run(h, xs, m)))
    decreases |xs|
  {
    hide Distributed, Step, PredictionsUsable;
    if xs == [] {
    } else {
      RunDistributes(h, xs[..|xs| - 1], m);
      StepDistributes(Run(h, xs[..|xs| - 1], m), xs[|xs| - 1], m);
      DistributedPredicts(Run(h, xs, m));
    }
  }

  /** What the validator leaves open: initial probabilities with positive total may still be
      negative. This is what a caller has to check besides (a total not above the smallest
      normal double is replaced by the uniform distribution). */
  predicate InitialBeliefsUsable(c: Settings, tiny: real) {
    Sum(c.initialProbability) <= tiny || forall s :: 0 <= s < 5 ==> c.initialProbability[s] >= 0.0
  }

  lemma InitialDistributed(c: Settings, m: Libm)
    requires Startable(c) && Sound(m) && InitialBeliefsUsable(c, m.tiny)
    ensures Learnable(Initial(c, m)) && Distributed(Initial(c, m))
  {
    hide Proportions, Normalized, ScaledRow, InitialRow, Sum;
    InitialIsLearnable(c, m);
    LargestIsMaximal(Normalized(c.initialProbability, m.tiny), 5);
    if Sum(c.initialProbability) <= m.tiny {
      UniformFallback(c.initialProbability, m.tiny);
      UniformStochastic();
    } else {
      NormalizedStochastic(c.initialProbability, m.tiny);
    }
  }

  lemma UniformFallback(v: Vector, tiny: real)
    requires tiny > 0.0 && Sum(v) <= tiny
    ensures Normalized(v, tiny) == [0.2, 0.2, 0.2, 0.2, 0.2]
  {
  }

  /** Whatever is reported of a model: a belief and rows that are distributions, and the state
      of largest belief, at least one fifth, even after the override. */
  predicate SoundReport(h: Model) {
    Stochastic(h.belief) && (forall r: State :: Stochastic(h.transition[r]))
    && (forall i :: 0 <= i < 5 ==> h.belief[i] <= h.belief[h.state]) && h.belief[h.state] >= 0.2
  }

  lemma DistributedReport(h: Model)
    requires Distributed(h)
    ensures SoundReport(h)
  {
    hide Stochastic;
    MaximumAtLeastFifth(h.belief, h.state);
  }

  lemma PosteriorSum(h: Model, x: Vector, m: Libm)
    requires h.minVariance > 0.0 && m.tiny > 0.0
    ensures Sum(Posterior(h, x, m)) == 1.0
  {
    hide Sum, Proportions, Normalized, Evidence;
    var v := Evidences(h, x, m);
    if Sum(v) > m.tiny {
      ProportionsSum(v);
      NormalizedIsProportions(v, m.tiny);
    } else {
      UniformFallback(v, m.tiny);
      UniformStochastic();
      StochasticSum([0.2, 0.2, 0.2, 0.2, 0.2]);
    }
  }

  /** What a posterior must be for its report to be sound: without the override, nowhere
      negative; with it, negative at most at the state reported instead, and nowhere more than
      one above that entry. */
  predicate Reportable(posterior: Vector, selected: State) {
    if selected == Largest(posterior) then forall i :: 0 <= i < 5 ==> posterior[i] >= 0.0
    else forall i :: 0 <= i < 5 && i != selected ==> 0.0 <= posterior[i] <= 1.0 + posterior[selected]
  }

  /** The condition of one report is exact, whatever the model believed before. */
  lemma SoundReportIff(h: Model, x: Vector, m: Libm)
    requires Learnable(h) && Sound(m) && m.tiny < 1.0
    ensures SoundReport(Step(h, x, m)) <==> Reportable(Posterior(h, x, m), Step(h, x, m).state)
  {
    hide Stochastic, Posterior, Blended, Select, NextMeans, NextVariances, NextCounts, NextRow, Reportable, Learnable;
    LearnableRow(h, 0);
    StepKeepsLearnable(h, x, m);
    PosteriorSum(h, x, m);
    var posterior, next := Posterior(h, x, m), Step(h, x, m);
    assert next.belief == Blended(posterior, Largest(posterior), next.state, m.tiny);
    BlendedSoundIff(posterior, next.state, m.tiny);
  }

  lemma BlendedSoundIff(posterior: Vector, s: State, tiny: real)
    requires Sum(posterior) == 1.0 && 0.0 < tiny < 1.0
    ensures var b := Blended(posterior, Largest(posterior), s, tiny);
      Stochastic(b) && (forall i :: 0 <= i < 5 ==> b[i] <= b[s]) && b[s] >= 0.2 <==> Reportable(posterior, s)
  {
    hide Normalized, Largest;
    var b := Blended(posterior, Largest(posterior), s, tiny);
    HalvedSum(posterior, s);
    UnitNormalized(Halved(posterior, s), tiny);
    if Stochastic(b) && forall i :: 0 <= i < 5 ==> b[i] <= b[s] {
      MaximumAtLeastFifth(b, s);
    }
    if s == Largest(posterior) {
      LargestIs(posterior);
    } else {
      hide Sum;
      assert b == Halved(posterior, s);
      forall i | 0 <= i < 5
        ensures b[i] == posterior[i] * 0.5 + if i == s then 0.5 else 0.0
      {
      }
      hide Halved, Blended;
    }
  }

  lemma LargestIs(v: Vector)
    ensures forall i :: 0 <= i < 5 ==> v[i] <= v[Largest(v)]
  {
    LargestIsMaximal(v, 5);
  }

  /** Once a report is sound, every later one is. */
  lemma {:induction false} SoundReportsLast(h: Model, xs: seq<Vector>, m: Libm)
    requires Learnable(h) && Sound(m) && m.tiny < 1.0 && xs != [] && SoundReport(Run(h, xs[..1], m))
    ensures SoundReport(Run(h, xs, m))
    decreases |xs|
  {
    hide SoundReport, Step, PredictionsUsable, Learnable;
    var n := |xs| - 1;
    if n == 0 {
      assert xs[..1] == xs;
    } else {
      assert xs[..n][..1] == xs[..1];
      SoundReportsLast(h, xs[..n], m);
      var before := Run(h, xs[..n], m);
      ReportDistributes(before);
      DistributedPredicts(before);
      StepDistributes(before, xs[n], m);
      DistributedReport(Run(h, xs, m));
    }
  }

  lemma ReportDistributes(h: Model)
    requires SoundReport(h)
    ensures Distributed(h)
  {
  }

  /** So the reports of a run from any model are all sound if and only if its first posterior
      can be reported. */
  lemma ReportsAlongRunsIff(h: Model, xs: seq<Vector>, m: Libm)
    requires Learnable(h) && Sound(m) && m.tiny < 1.0 && xs != []
    ensures (forall k :: 1 <= k <= |xs| ==> SoundReport(Run(h, xs[..k], m)))
      <==> Reportable(Posterior(h, xs[0], m), Step(h, xs[0], m).state)
  {
    hide SoundReport, Reportable, Posterior, Step, Learnable;
    SoundReportIff(h, xs[0], m);
    FirstStep(h, xs, m);
    if SoundReport(Run(h, xs[..1], m)) {
      forall k | 1 <= k <= |xs|
        ensures SoundReport(Run(h, xs[..k], m))
      {
        assert xs[..k][..1] == xs[..1];
        SoundReportsLast(h, xs[..k], m);
      }
    }
  }

  lemma FirstStep(h: Model, xs: seq<Vector>, m: Libm)
    requires Learnable(h) && m.tiny > 0.0 && xs != []
    ensures Run(h, xs[..1], m) == Step(h, xs[0], m)
  {
    hide Step, Learnable;
    assert xs[..1][..0] == [];
  }

  /** When no prediction from the initial belief is negative, every report of every run is
      sound, even if the initial belief itself is not a distribution. */
  lemma ReportsAlongRuns(c: Settings, xs: seq<Vector>, m: Libm)
    requires Startable(c) && Sound(m) && m.tiny < 1.0 && PredictionsUsable(Initial(c, m)) && xs != []
    ensures Learnable(Initial(c, m)) && SoundReport(Run(Initial(c, m), xs, m))
  {
    hide Stochastic, Initial, Run, PredictionsUsable;
    InitialIsLearnable(c, m);
    RunDistributes(Initial(c, m), xs, m);
    DistributedReport(Run(Initial(c, m), xs, m));
  }

  /** Along every run, from the start on, the same holds when the initial probabilities are
      usable. */
  lemma BeliefsAlongRuns(c: Settings, xs: seq<Vector>, m: Libm)
    requires Startable(c) && Sound(m) && m.tiny < 1.0 && InitialBeliefsUsable(c, m.tiny)
    ensures Learnable(Initial(c, m)) && PredictionsUsable(Initial(c, m))
    ensures SoundReport(Run(Initial(c, m), xs, m))
  {
    hide Stochastic, Initial, Distributed, PredictionsUsable;
    InitialDistributed(c, m);
    DistributedPredicts(Initial(c, m));
    RunDistributes(Initial(c, m), xs, m);
    DistributedReport(Run(Initial(c, m), xs, m));
  }

  /** The condition is exact: beliefs stay distributions along all runs if and only if the
      initial probabilities are usable. */
  lemma BeliefsAlongRunsIff(c: Settings, m: Libm)
    requires Startable(c) && Sound(m) && m.tiny < 1.0
    ensures Learnable(Initial(c, m))
    ensures (forall xs :: Stochastic(Run(Initial(c, m), xs, m).belief)) <==> InitialBeliefsUsable(c, m.tiny)
  {
    InitialIsLearnable(c, m);
    if InitialBeliefsUsable(c, m.tiny) {
      forall xs
        ensures Stochastic(Run(Initial(c, m), xs, m).belief)
      {
        BeliefsAlongRuns(c, xs, m);
      }
    } else {
      var s :| 0 <= s < 5 && c.initialProbability[s] < 0.0;
      NegativeStart(c, m, s);
    }
  }

  lemma NegativeStart(c: Settings, m: Libm, s: State)
    requires Startable(c) && Sound(m) && Learnable(Initial(c, m))
    requires Sum(c.initialProbability) > m.tiny && c.initialProbability[s] < 0.0
    ensures !Stochastic(Run(Initial(c, m), [], m).belief)
  {
    hide Sum, InitialRow;
    var v := c.initialProbability;
    NegativeRatio(v[s], Sum(v));
    assert Normalized(v, m.tiny)[s] == v[s] / Sum(v);
    assert Run(Initial(c, m), [], m).belief == Normalized(v, m.tiny);
  }

  lemma NegativeRatio(a: real, t: real)
    requires a < 0.0 < t
    ensures a / t < 0.0
  {
  }

  /** The validator does accept such a configuration. */
  lemma ValidatorAdmitsNegativeBelief(c: Settings)
    requires Shaped(c) && Valid(c)
    ensures Shaped(Skewed(c)) && Valid(Skewed(c))
    ensures forall tiny :: 0.0 < tiny < 1.0 ==> !InitialBeliefsUsable(Skewed(c), tiny)
  {
    var c' := Skewed(c);
    hide IsPowerOfTwo;
    assert Sum(c'.initialProbability) == 1.0;
    forall s | 0 <= s < STATES
      ensures StateOk(c', s)
    {
      assert StateOk(c, s);
      assert Sum(c'.transitionPrior[s]) == 1.0;
    }
    assert c'.initialProbability[1] < 0.0;
  }

  /** A configuration that doubts one state, stays where it is and tells no states apart. */
  function Skewed(c: Settings): Settings {
    c.(initialProbability := DOUBT,
       transitionPrior := [[1.0, 0.0, 0.0, 0.0, 0.0], [0.0, 1.0, 0.0, 0.0, 0.0], [0.0, 0.0, 1.0, 0.0, 0.0],
                           [0.0, 0.0, 0.0, 1.0, 0.0], [0.0, 0.0, 0.0, 0.0, 1.0]],
       emissionMean := [ZERO, ZERO, ZERO, ZERO, ZERO],
       emissionVariance := [ONES, ONES, ONES, ONES, ONES])
  }

  const DOUBT: Vector := [2.0, -1.0, 0.0, 0.0, 0.0]
  const ONES: Vector := [1.0, 1.0, 1.0, 1.0, 1.0]

  /** And it reports a negative belief after its first observation, whatever that is (so long
      as its density is above the least the code starts its maximum from). */
  lemma NegativeReport(c: Settings, x: Vector, m: Libm)
    requires Shaped(c) && Valid(c) && Sound(m) && m.tiny < 1.0 && m.exp(0.0) == 1.0
    requires Startable(Skewed(c)) && LogDensity(Initial(Skewed(c), m), 0, x, m) > m.lowest
    ensures Learnable(Initial(Skewed(c), m))
    ensures Run(Initial(Skewed(c), m), [x], m).belief == DOUBT
  {
    hide LogDensity, Initial, Learnable, Select, NextCounts, NextRow, NextMeans, NextVariances, Posterior;
    var h := Initial(Skewed(c), m);
    StartLearnable(Skewed(c), m);
    SkewedStart(c, m);
    SkewedPosterior(h, x, m);
    assert [x][..0] == [];
    assert Run(h, [], m) == h;
    FirstSelected(h.remaining, h.hold);
    assert Candidate(h, x, m) == 0;
    StepReports(h, x, m);
  }

  lemma FirstSelected(remaining: nat, hold: nat)
    ensures Select(0, remaining, hold, 0) == (0, remaining)
    ensures Largest(DOUBT) == 0
  {
    assert LargestTo(DOUBT, 1) == 0 && LargestTo(DOUBT, 2) == 0 && LargestTo(DOUBT, 3) == 0 && LargestTo(DOUBT, 4) == 0;
  }

  lemma StepReports(h: Model, x: Vector, m: Libm)
    requires Learnable(h) && m.tiny > 0.0 && h.minVariance > 0.0
    requires Select(h.state, h.remaining, h.hold, Candidate(h, x, m)).0 == Candidate(h, x, m)
    ensures Step(h, x, m).belief == Posterior(h, x, m)
  {
    hide Learnable, NextCounts, NextRow, NextMeans, NextVariances, Posterior, Candidate, Select;
  }

  /** With equal densities the posterior is the prediction. */
  lemma SkewedPosterior(h: Model, x: Vector, m: Libm)
    requires Sound(m) && m.tiny < 1.0 && m.exp(0.0) == 1.0 && h.minVariance > 0.0
    requires LogDensity(h, 0, x, m) > m.lowest && h.belief == DOUBT
    requires forall s: State :: h.means[s] == ZERO && h.variances[s] == ONES
    requires forall j: State :: PredictTo(h.belief, h.transition, j, 5) == h.belief[j]
    ensures Posterior(h, x, m) == DOUBT
  {
    forall s: State
      ensures LogDensity(h, s, x, m) == LogDensity(h, 0, x, m)
    {
      SameDensity(h, s, x, m, 5);
    }
    hide LogDensity, PredictTo, MaxLogTo, Normalized;
    MaxOfEqual(h, x, m, 5);
    forall j: State
      ensures Evidence(h, x, m, j) == DOUBT[j]
    {
      TimesOfOne(DOUBT[j]);
      TimesCommutes(DOUBT[j], 1.0);
    }
    UnitNormalized(DOUBT, m.tiny);
    assert Evidences(h, x, m) == DOUBT;
  }

  lemma SkewedStart(c: Settings, m: Libm)
    requires Startable(Skewed(c)) && m.tiny > 0.0 && m.tiny < 1.0
    ensures var h := Initial(Skewed(c), m);
      h.belief == DOUBT && h.state == 0 && h.minVariance > 0.0
      && (forall s: State :: h.means[s] == ZERO && h.variances[s] == ONES)
      && forall j: State :: PredictTo(h.belief, h.transition, j, 5) == h.belief[j]
  {
    var c', b := Skewed(c), DOUBT;
    var h := Initial(c', m);
    assert Sum(b) == 1.0;
    UnitNormalized(b, m.tiny);
    assert LargestTo(b, 1) == 0 && LargestTo(b, 2) == 0 && LargestTo(b, 3) == 0 && LargestTo(b, 4) == 0;
    forall s: State
      ensures h.transition[s] == c'.transitionPrior[s]
    {
      UnitProportions(c'.transitionPrior[s]);
    }
    forall j: State
      ensures PredictTo(b, h.transition, j, 5) == b[j]
    {
      IdentityPredicts(b, h.transition, j);
    }
  }

  lemma UnitProportions(v: Vector)
    requires Sum(v) == 1.0
    ensures Proportions(v) == v
  {
    hide Sum;
    assert v == [v[0], v[1], v[2], v[3], v[4]];
  }

  lemma IdentityPredicts(b: Vector, t: Matrix, j: State)
    requires forall r: State, k: State :: t[r][k] == if r == k then 1.0 else 0.0
    ensures PredictTo(b, t, j, 5) == b[j]
  {
    assert forall r: State :: Times(b[r], t[r][j]) == if r == j then b[r] else 0.0;
    hide Times;
    assert PredictTo(b, t, j, 1) == Times(b[0], t[0][j]);
    assert PredictTo(b, t, j, 3) == PredictTo(b, t, j, 1) + Times(b[1], t[1][j]) + Times(b[2], t[2][j]);
    assert PredictTo(b, t, j, 5) == PredictTo(b, t, j, 3) + Times(b[3], t[3][j]) + Times(b[4], t[4][j]);
  }

  lemma {:induction false} SameDensity(h: Model, s: State, x: Vector, m: Libm, n: nat)
    requires n <= 5 && h.minVariance > 0.0
    requires forall t: State :: h.means[t] == ZERO && h.variances[t] == ONES
    ensures LogDensityTo(h, s, x, m, n) == LogDensityTo(h, 0, x, m, n)
  {
    if n == 0 {
    } else {
      SameDensity(h, s, x, m, n - 1);
    }
  }

  lemma {:induction false} MaxOfEqual(h: Model, x: Vector, m: Libm, n: nat)
    requires 1 <= n <= 5 && h.minVariance > 0.0 && LogDensity(h, 0, x, m) > m.lowest
    requires forall s: State :: LogDensity(h, s, x, m) == LogDensity(h, 0, x, m)
    ensures MaxLogTo(h, x, m, n) == LogDensity(h, 0, x, m)
  {
    hide LogDensity;
    if n == 1 {
      assert MaxLogTo(h, x, m, 0) == m.lowest;
    } else {
      MaxOfEqual(h, x, m, n - 1);
    }
  }

  // ----- transitions that can never happen -----

  predicate Unused(h: Model, from: State, to: State) {
    h.prior[from][to] == 0.0 && h.counts[from][to] == 0.0 && h.transition[from][to] == 0.0
  }

  lemma StepKeepsUnused(h: Model, x: Vector, m: Libm, from: State, to: State)
    requires Learnable(h) && m.tiny > 0.0 && Forbidden(from, to) && Unused(h, from, to)
    ensures Unused(Step(h, x, m), from, to)
  {
    hide Step, Candidate, Proportions, Sum, Select, Forbidden, Learnable;
    var next := Step(h, x, m);
    StepCounts(h, x, m, from);
    LearnableRow(h, from);
    ForbiddenNeverSelected(h.state, h.remaining, h.hold, Candidate(h, x, m));
    UnusedRow(h.counts[from], h.prior[from], h.forgetting, h.smoothing, from == h.state, next.state, to);
  }

  lemma LearnableRow(h: Model, r: State)
    requires Learnable(h)
    ensures RowSound(h.counts[r], h.prior[r]) && 0.0 < h.forgetting <= 1.0 && h.smoothing >= 0.0
    ensures h.minVariance > 0.0
  {
  }

  lemma UnusedRow(row: Vector, prior: Vector, forgetting: real, smoothing: real, bump: bool, selected: State, to: State)
    requires RowSound(row, prior) && 0.0 < forgetting <= 1.0 && smoothing >= 0.0
    requires row[to] == 0.0 == prior[to] && (bump ==> selected != to)
    ensures var next := CountRow(row, forgetting, bump, selected);
      next[to] == 0.0 && Sum(Smoothed(next, prior, smoothing)) > 0.0
      && Proportions(Smoothed(next, prior, smoothing))[to] == 0.0
  {
    hide Proportions, Sum;
    RowStaysSound(row, prior, forgetting, bump, selected, smoothing);
    ProportionsSum(Smoothed(CountRow(row, forgetting, bump, selected), prior, smoothing));
  }

  /** A forbidden transition with zero prior keeps learned count and probability exactly zero
      after any number of observations. */
  lemma {:induction false} ForbiddenStaysZero(c: Settings, xs: seq<Vector>, m: Libm, from: State, to: State)
    requires Startable(c) && m.tiny > 0.0 && Forbidden(from, to) && c.transitionPrior[from][to] == 0.0
    ensures Learnable(Initial(c, m)) && Unused(Run(Initial(c, m), xs, m), from, to)
    decreases |xs|
  {
    InitialIsLearnable(c, m);
    if xs == [] {
      UnusedAtFirst(c, m, from, to);
    } else {
      hide Step, Unused, Initial;
      ForbiddenStaysZero(c, xs[..|xs| - 1], m, from, to);
      StepKeepsUnused(Run(Initial(c, m), xs[..|xs| - 1], m), xs[|xs| - 1], m, from, to);
    }
  }

  lemma UnusedAtFirst(c: Settings, m: Libm, from: State, to: State)
    requires Startable(c) && m.tiny > 0.0 && c.transitionPrior[from][to] == 0.0
    ensures Unused(Initial(c, m), from, to)
  {
    hide InitialRow, ScaledRow, Sum, Normalized;
    var h := Initial(c, m);
    assert h.prior[from] == InitialRow(c, from) == h.transition[from];
    assert h.counts[from] == ScaledRow(InitialRow(c, from), c.transitionPriorStrength);
    ZeroPrior(c, from, to);
  }

  lemma ZeroPrior(c: Settings, from: State, to: State)
    requires Startable(c) && c.transitionPrior[from][to] == 0.0
    ensures InitialRow(c, from)[to] == 0.0 == ScaledRow(InitialRow(c, from), c.transitionPriorStrength)[to]
  {
    hide Proportions, Sum;
    ProportionsSum(c.transitionPrior[from]);
  }

  // ----- bounds on what is learned -----

  function Max(a: real, b: real): real { if a > b then a else b }

  function Min(a: real, b: real): real { if a < b then a else b }

  /** The hull of an initial mean and the scores of the normaliser. */
  function LowEnd(mean: real): real { Min(mean, -6.0) }

  function HighEnd(mean: real): real { Max(mean, 6.0) }

  function VarianceCap(mean: real, variance: real, floor: real): real {
    var width := HighEnd(mean) - LowEnd(mean);
    Max(variance, Max(floor, width * width))
  }

  predicate WithinBounds(start: Model, h: Model) {
    h.minVariance == start.minVariance &&
    forall s: State, k: State ::
      LowEnd(start.means[s][k]) <= h.means[s][k] <= HighEnd(start.means[s][k])
      && h.variances[s][k] <= VarianceCap(start.means[s][k], start.variances[s][k], start.minVariance)
  }

  predicate Scores(x: Vector) {
    forall k :: 0 <= k < 5 ==> -6.0 <= x[k] <= 6.0
  }

  lemma MeanStaysInHull(start: real, mean: real, rate: real, x: real)
    requires LowEnd(start) <= mean <= HighEnd(start) && -6.0 <= x <= 6.0 && 0.0 <= rate <= 1.0
    ensures LowEnd(start) <= NextMean(mean, rate, x) <= HighEnd(start)
  {
    var d := x - mean;
    assert d >= 0.0 ==> 0.0 <= Times(rate, d) <= d by {
      if d >= 0.0 { FractionOf(rate, d); }
    }
    assert d <= 0.0 ==> d <= Times(rate, d) <= 0.0 by {
      if d <= 0.0 { FractionOf(rate, -d); }
    }
  }

  lemma FractionOf(rate: real, d: real)
    requires 0.0 <= rate <= 1.0 && d >= 0.0
    ensures 0.0 <= Times(rate, d) <= d && Times(rate, -d) == -Times(rate, d)
  {
    TimesOrdered(d, 0.0, rate);
    TimesOrdered(d, rate, 1.0);
    TimesCommutes(d, rate);
  }

  lemma VarianceStaysBounded(start: real, first: real, floor: real, mean: real, variance: real, rate: real, x: real)
    requires LowEnd(start) <= mean <= HighEnd(start) && -6.0 <= x <= 6.0 && 0.0 <= rate <= 1.0
    requires variance <= VarianceCap(start, first, floor)
    ensures floor <= NextVariance(mean, variance, rate, x, floor) <= VarianceCap(start, first, floor)
  {
    var cap, d, width := VarianceCap(start, first, floor), x - mean, HighEnd(start) - LowEnd(start);
    SquareWithin(d, width);
    TimesOrdered(rate, Times(d, d), cap);
    TimesOrdered(1.0 - rate, variance, cap);
    TimesPlus(cap, 1.0 - rate, rate);
    TimesCommutes(1.0 - rate, cap);
    TimesCommutes(rate, cap);
    assert Times(cap, 1.0) == cap;
  }

  lemma SquareWithin(d: real, w: real)
    requires -w <= d <= w
    ensures Times(d, d) <= w * w
  {
    var a := Abs(d);
    TimesOrdered(a, a, w);
    TimesOrdered(w, a, w);
    TimesCommutes(a, w);
  }

  lemma RateInUnit(alpha: real, belief: Vector, s: State)
    requires 0.0 < alpha < 1.0 && Stochastic(belief)
    ensures 0.0 <= Times(alpha, belief[s]) <= 1.0
  {
    assert belief[s] <= 1.0;
    TimesOrdered(alpha, 0.0, belief[s]);
    TimesOrdered(alpha, belief[s], 1.0);
  }

  lemma StepKeepsBounds(start: Model, h: Model, x: Vector, m: Libm)
    requires Learnable(h) && Sound(m) && m.tiny < 1.0 && PredictionsUsable(h) && Scores(x) && WithinBounds(start, h)
    ensures WithinBounds(start, Step(h, x, m))
    ensures forall s: State, k: State :: Step(h, x, m).variances[s][k] >= h.minVariance
  {
    StepDistributes(h, x, m);
    hide PredictionsUsable, Posterior, Blended, Select, NextCounts, NextRow, Times, NextMean, NextVariance, LowEnd,
      HighEnd, VarianceCap, Stochastic, Learnable;
    var next := Step(h, x, m);
    var alpha := h.emissionAlpha;
    AlphaInUnit(h);
    forall s: State, k: State
      ensures LowEnd(start.means[s][k]) <= next.means[s][k] <= HighEnd(start.means[s][k])
      ensures h.minVariance <= next.variances[s][k]
              <= VarianceCap(start.means[s][k], start.variances[s][k], start.minVariance)
    {
      var rate := Times(alpha, next.belief[s]);
      RateInUnit(alpha, next.belief, s);
      MeanStaysInHull(start.means[s][k], h.means[s][k], rate, x[k]);
      VarianceStaysBounded(start.means[s][k], start.variances[s][k], start.minVariance,
                           h.means[s][k], h.variances[s][k], rate, x[k]);
      EmissionAt(h, x, m, s, k);
    }
  }

  lemma AlphaInUnit(h: Model)
    requires Learnable(h)
    ensures 0.0 < h.emissionAlpha < 1.0
  {
  }

  lemma EmissionAt(h: Model, x: Vector, m: Libm, s: State, k: State)
    requires Learnable(h) && m.tiny > 0.0
    ensures var next := Step(h, x, m);
      var rate := Times(h.emissionAlpha, next.belief[s]);
      next.means[s][k] == NextMean(h.means[s][k], rate, x[k])
      && next.variances[s][k] == NextVariance(h.means[s][k], h.variances[s][k], rate, x[k], h.minVariance)
  {
    hide Posterior, Blended, Select, NextCounts, NextRow, Times, NextMean, NextVariance, Learnable;
    var next := Step(h, x, m);
    assert next.means[s] == NextMeans(h, next.belief, x, s);
    assert next.variances[s] == NextVariances(h, next.belief, x, s);
  }

  /** Fed with normalised scores, every emission mean stays in the hull of its initial value and
      [-6, 6], and every variance between the floor (from the first observation on) and an
      explicit cap, forever. */
  lemma {:induction false} EmissionsAlongRuns(c: Settings, xs: seq<Vector>, m: Libm)
    requires Startable(c) && Sound(m) && m.tiny < 1.0 && PredictionsUsable(Initial(c, m))
    requires forall i :: 0 <= i < |xs| ==> Scores(xs[i])
    ensures Learnable(Initial(c, m))
    ensures WithinBounds(Initial(c, m), Run(Initial(c, m), xs, m))
    ensures xs != [] ==> forall s: State, k: State ::
      Run(Initial(c, m), xs, m).variances[s][k] >= c.minEmissionVariance
    decreases |xs|
  {
    hide Initial, Step, Learnable, Distributed, WithinBounds, Scores, Startable, PredictionsUsable;
    StartLearnable(c, m);
    var start := Initial(c, m);
    InitialFloor(c, m);
    if xs == [] {
      BoundsAtFirst(start);
    } else {
      var n := |xs| - 1;
      EmissionsAlongRuns(c, xs[..n], m);
      RunDistributes(start, xs[..n], m);
      SameFloor(start, Run(start, xs[..n], m));
      StepKeepsBounds(start, Run(start, xs[..n], m), xs[n], m);
    }
  }

  lemma BoundsAtFirst(h: Model)
    ensures WithinBounds(h, h)
  {
  }

  lemma InitialFloor(c: Settings, m: Libm)
    requires Startable(c) && m.tiny > 0.0
    ensures Initial(c, m).minVariance == c.minEmissionVariance
  {
    hide InitialRow, ScaledRow, Normalized, Sum;
  }

  lemma SameFloor(start: Model, h: Model)
    requires WithinBounds(start, h)
    ensures h.minVariance == start.minVariance
  {
  }

  lemma StepCounts(h: Model, x: Vector, m: Libm, r: State)
    requires Learnable(h) && m.tiny > 0.0
    ensures Step(h, x, m).counts[r] == NextCounts(h, h.state, Step(h, x, m).state, r)
    ensures Step(h, x, m).transition[r] == NextRow(h, h.state, Step(h, x, m).state, r)
    ensures Step(h, x, m).prior[r] == h.prior[r] && Step(h, x, m).forgetting == h.forgetting
    ensures Step(h, x, m).state == Select(h.state, h.remaining, h.hold, Candidate(h, x, m)).0
  {
    hide NextMeans, NextVariances, Posterior, Candidate, Blended, Select, NextCounts, NextRow, Learnable;
  }

  predicate CountsBounded(h: Model, r: State, f: real, bound: real) {
    h.forgetting == f && Sum(h.counts[r]) <= bound
  }

  lemma StepKeepsCountsBounded(h: Model, x: Vector, m: Libm, r: State, f: real, bound: real)
    requires Learnable(h) && m.tiny > 0.0 && CountsBounded(h, r, f, bound)
    requires f < 1.0 && bound >= 1.0 / (1.0 - f)
    ensures CountsBounded(Step(h, x, m), r, f, bound)
  {
    hide Step, CountRow, Smoothed, Times, Sum;
    StepCounts(h, x, m, r);
    RowStaysSound(h.counts[r], h.prior[r], h.forgetting, r == h.state, Step(h, x, m).state, h.smoothing);
    SoundMass(h.counts[r], h.prior[r]);
    ForgettingBound(Sum(h.counts[r]), f, bound);
  }

  function CountCap(c: Settings): real
    requires c.transitionForgetting < 1.0
  {
    Max(c.transitionPriorStrength, 1.0 / (1.0 - c.transitionForgetting))
  }

  /** With forgetting below one, no row of transition counts ever exceeds the larger of its
      initial strength and 1 / (1 - forgetting). */
  lemma {:induction false} CountsAlongRuns(c: Settings, xs: seq<Vector>, m: Libm, r: State)
    requires Startable(c) && m.tiny > 0.0 && c.transitionForgetting < 1.0
    ensures Learnable(Initial(c, m))
    ensures CountsBounded(Run(Initial(c, m), xs, m), r, c.transitionForgetting, CountCap(c))
    decreases |xs|
  {
    hide Initial, Step, Learnable, Sum, Startable, CountsBounded, CountCap;
    StartLearnable(c, m);
    CapCovers(c);
    if xs == [] {
      BoundedAtFirst(c, m, r);
    } else {
      CountsAlongRuns(c, xs[..|xs| - 1], m, r);
      StepKeepsCountsBounded(Run(Initial(c, m), xs[..|xs| - 1], m), xs[|xs| - 1], m, r, c.transitionForgetting,
                             CountCap(c));
    }
  }

  lemma CapCovers(c: Settings)
    requires c.transitionForgetting < 1.0
    ensures CountCap(c) >= 1.0 / (1.0 - c.transitionForgetting)
  {
  }

  lemma StartLearnable(c: Settings, m: Libm)
    requires Startable(c) && m.tiny > 0.0
    ensures Learnable(Initial(c, m))
  {
    InitialIsLearnable(c, m);
  }

  lemma BoundedAtFirst(c: Settings, m: Libm, r: State)
    requires Startable(c) && m.tiny > 0.0 && c.transitionForgetting < 1.0
    ensures CountsBounded(Initial(c, m), r, c.transitionForgetting, CountCap(c))
  {
    InitialIsLearnable(c, m);
    InitialForgetting(c, m);
  }

  lemma InitialForgetting(c: Settings, m: Libm)
    requires Startable(c) && m.tiny > 0.0
    ensures Initial(c, m).forgetting == c.transitionForgetting
  {
    hide InitialRow, ScaledRow, Normalized, Sum;
  }

  lemma ForgettingBound(sum: real, f: real, bound: real)
    requires 0.0 < f < 1.0 && 0.0 <= sum <= bound && bound >= 1.0 / (1.0 - f)
    ensures Times(sum, f) + 1.0 <= bound
  {
    hide Times;
    var g := 1.0 - f;
    RatioFacts(1.0, g);
    TimesCommutes(1.0 / g, g);
    TimesOrdered(g, 1.0 / g, bound);
    TimesOrdered(f, sum, bound);
    TimesCommutes(sum, f);
    WholeOf(f, bound);
  }

  lemma WholeOf(f: real, bound: real)
    ensures Times(f, bound) + Times(1.0 - f, bound) == bound
  {
  }
}
