/** What one observation teaches the model, and what all of them have: means and variances close
    a fraction of their distance, a transition row is what was seen of it with the prior mixed
    in, and every past transition counts with the forgetting raised to its age. */
module Adaptation {
  import opened Reals
  import opened Config
  import opened Hmm
  import opened Learning
  import Normalizer

  // ----- emissions -----

  /** How far a value moves towards its target: exactly the fraction rate of the way. */
  predicate Closes(before: real, after: real, target: real, rate: real) {
    target - after == Times(1.0 - rate, target - before)
  }

  lemma MeanCloses(mean: real, rate: real, x: real)
    ensures Closes(mean, NextMean(mean, rate, x), x, rate)
  {
    TimesPlus(x - mean, 1.0 - rate, rate);
    TimesCommutes(x - mean, 1.0 - rate);
    TimesCommutes(x - mean, rate);
    assert (1.0 - rate) + rate == 1.0;
    assert Times(x - mean, 1.0) == x - mean;
    hide Times;
  }

  /** The variance towards the squared deviation from the old mean, and never below the floor. */
  ghost predicate ClosesFloored(before: real, after: real, target: real, rate: real, floor: real) {
    exists moved :: Closes(before, moved, target, rate) && after == if moved < floor then floor else moved
  }

  lemma VarianceCloses(mean: real, variance: real, rate: real, x: real, floor: real)
    ensures ClosesFloored(variance, NextVariance(mean, variance, rate, x, floor), Times(x - mean, x - mean), rate,
                          floor)
  {
    var target := Times(x - mean, x - mean);
    var moved := Times(1.0 - rate, variance) + Times(rate, target);
    assert Closes(variance, moved, target, rate) by {
      assert Times(1.0 - rate, target - variance) == Times(1.0 - rate, target) - Times(1.0 - rate, variance);
      assert Times(1.0 - rate, target) == target - Times(rate, target);
    }
    hide Times, Closes;
  }

  /** Of one observation, every state learns in proportion to its new belief. */
  lemma EmissionsClose(h: Model, x: Vector, m: Libm, s: State, k: nat)
    requires Learnable(h) && m.tiny > 0.0 && k < 5
    ensures var next := Step(h, x, m);
      var rate, mean := Times(h.emissionAlpha, next.belief[s]), h.means[s][k];
      Closes(mean, next.means[s][k], x[k], rate)
      && ClosesFloored(h.variances[s][k], next.variances[s][k], Times(x[k] - mean, x[k] - mean), rate, h.minVariance)
  {
    hide Closes, ClosesFloored, Times, NextMean, NextVariance;
    var next := Step(h, x, m);
    StepEmissions(h, x, m, s);
    var rate := Times(h.emissionAlpha, next.belief[s]);
    MeanCloses(h.means[s][k], rate, x[k]);
    VarianceCloses(h.means[s][k], h.variances[s][k], rate, x[k], h.minVariance);
    assert k == 0 || k == 1 || k == 2 || k == 3 || k == 4;
  }

  lemma StepEmissions(h: Model, x: Vector, m: Libm, s: State)
    requires Learnable(h) && m.tiny > 0.0
    ensures Step(h, x, m).means[s] == NextMeans(h, Step(h, x, m).belief, x, s)
    ensures Step(h, x, m).variances[s] == NextVariances(h, Step(h, x, m).belief, x, s)
  {
    hide NextMeans, NextVariances, Posterior, Candidate, Blended, Select, NextCounts, NextRow, Learnable;
  }

  // ----- transition rows -----

  /** A row is proportional to its counts plus the smoothing of its prior. */
  predicate RowOf(row: Vector, counts: Vector, prior: Vector, smoothing: real) {
    forall t :: 0 <= t < 5 ==>
      Times(row[t], Sum(counts) + Times(smoothing, Sum(prior))) == counts[t] + Times(smoothing, prior[t])
  }

  lemma SmoothedSum(counts: Vector, prior: Vector, smoothing: real)
    ensures Sum(Smoothed(counts, prior, smoothing)) == Sum(counts) + Times(smoothing, Sum(prior))
  {
    TimesSum(prior, smoothing);
    TimesCommutes(Sum(prior), smoothing);
    TimesCommutes(prior[0], smoothing);
    TimesCommutes(prior[1], smoothing);
    TimesCommutes(prior[2], smoothing);
    TimesCommutes(prior[3], smoothing);
    TimesCommutes(prior[4], smoothing);
    hide Times;
  }

  lemma ProportionsAreRow(counts: Vector, prior: Vector, smoothing: real)
    requires Sum(Smoothed(counts, prior, smoothing)) > 0.0
    ensures RowOf(Proportions(Smoothed(counts, prior, smoothing)), counts, prior, smoothing)
  {
    SmoothedSum(counts, prior, smoothing);
    hide Sum, Times;
    var v := Smoothed(counts, prior, smoothing);
    RatioFacts(v[0], Sum(v));
    RatioFacts(v[1], Sum(v));
    RatioFacts(v[2], Sum(v));
    RatioFacts(v[3], Sum(v));
    RatioFacts(v[4], Sum(v));
  }

  /** After every observation each row is that of its counts. */
  lemma RowsOfCounts(h: Model, x: Vector, m: Libm, r: State)
    requires Learnable(h) && m.tiny > 0.0
    ensures var next := Step(h, x, m);
      RowOf(next.transition[r], next.counts[r], h.prior[r], h.smoothing)
  {
    hide Step, CountRow, Smoothed, Proportions, Sum, RowOf;
    var next := Step(h, x, m);
    StepCounts(h, x, m, r);
    LearnableRow(h, r);
    RowStaysSound(h.counts[r], h.prior[r], h.forgetting, r == h.state, next.state, h.smoothing);
    SoundMass(next.counts[r], next.prior[r]);
    ProportionsAreRow(next.counts[r], h.prior[r], h.smoothing);
  }

  /** A row of which nothing was counted is its prior. */
  lemma UncountedRowIsPrior(row: Vector, prior: Vector, smoothing: real)
    requires smoothing > 0.0 && Sum(prior) == 1.0 && RowOf(row, ZERO, prior, smoothing)
    ensures row == prior
  {
    assert Sum(ZERO) == 0.0;
    TimesCommutes(smoothing, 1.0);
    TimesOfOne(smoothing);
    forall t | 0 <= t < 5
      ensures row[t] == prior[t]
    {
      TimesCommutes(row[t], smoothing);
      SameFactor(smoothing, row[t], prior[t]);
    }
    hide Times;
  }

  lemma SameFactor(a: real, b: real, c: real)
    requires a > 0.0 && Times(a, b) == Times(a, c)
    ensures b == c
  {
  }

  // ----- counts along runs -----

  /** The states of a run, the one it starts in first. */
  function Path(h: Model, xs: seq<Vector>, m: Libm): (p: seq<State>)
    requires Learnable(h) && m.tiny > 0.0
    ensures |p| == |xs| + 1 && p[|xs|] == Run(h, xs, m).state
    decreases |xs|
  {
    if xs == [] then [h.state] else Path(h, xs[..|xs| - 1], m) + [Run(h, xs, m).state]
  }

  /** The first n moves of a path from r to t, each weighed by the forgetting raised to the
      number of moves after it. */
  function CountedTo(path: seq<State>, r: State, t: State, forgetting: real, n: nat): real
    requires n < |path|
  {
    if n == 0 then 0.0
    else CountedTo(path, r, t, forgetting, n - 1)
         + if path[n - 1] == r && path[n] == t then Normalizer.Power(forgetting, |path| - 1 - n) else 0.0
  }

  lemma {:induction false} CountedDecays(path: seq<State>, s: State, r: State, t: State, forgetting: real, n: nat)
    requires n < |path|
    ensures CountedTo(path + [s], r, t, forgetting, n) == Times(forgetting, CountedTo(path, r, t, forgetting, n))
  {
    if n == 0 {
      TimesOfZero(forgetting);
    } else {
      CountedDecays(path, s, r, t, forgetting, n - 1);
      var power := Normalizer.Power(forgetting, |path| - 1 - n);
      PowerStep(forgetting, |path| - 1 - n);
      TimesOfZero(forgetting);
      TimesPlus(forgetting, CountedTo(path, r, t, forgetting, n - 1), power);
      hide Times, Normalizer.Power;
    }
  }

  lemma PowerStep(f: real, n: nat)
    ensures Normalizer.Power(f, n + 1) == Times(f, Normalizer.Power(f, n))
    ensures Normalizer.Power(f, 0) == 1.0
  {
  }

  lemma CountStep(row: Vector, f: real, bump: bool, to: State, t: State)
    ensures CountRow(row, f, bump, to)[t] == Times(f, row[t]) + if bump && to == t then 1.0 else 0.0
  {
    TimesCommutes(f, row[t]);
    assert t == 0 || t == 1 || t == 2 || t == 3 || t == 4;
    hide Times;
  }

  /** After any run, the count of a transition is every time it was made, each time weighed by
      the forgetting raised to how long ago that was, and the initial count forgotten as often. */
  lemma {:induction false} CountsAreMoves(h: Model, xs: seq<Vector>, m: Libm, r: State, t: State)
    requires Learnable(h) && m.tiny > 0.0
    ensures Run(h, xs, m).forgetting == h.forgetting
    ensures Run(h, xs, m).counts[r][t]
         == Times(Normalizer.Power(h.forgetting, |xs|), h.counts[r][t])
          + CountedTo(Path(h, xs, m), r, t, h.forgetting, |xs|)
    decreases |xs|
  {
    hide Step, CountRow, Learnable;
    if xs == [] {
      TimesOfOne(h.counts[r][t]);
      PowerStep(h.forgetting, 0);
    } else {
      var n, f := |xs| - 1, h.forgetting;
      var earlier := Run(h, xs[..n], m);
      CountsAreMoves(h, xs[..n], m, r, t);
      StepCounts(earlier, xs[n], m, r);
      CountStep(earlier.counts[r], f, r == earlier.state, Run(h, xs, m).state, t);
      var path := Path(h, xs[..n], m);
      CountedDecays(path, Run(h, xs, m).state, r, t, f, n);
      PowerStep(f, n);
      PowerStep(f, 0);
      TimesPlus(f, Times(Normalizer.Power(f, n), h.counts[r][t]), CountedTo(path, r, t, f, n));
      TimesAssociates(f, Normalizer.Power(f, n), h.counts[r][t]);
      hide Times, Normalizer.Power;
    }
  }

  // ----- the start -----

  /** The model starts from the configuration: beliefs and rows proportional to what it gives,
      counts for the strength of the prior, and its centres and spreads. */
  lemma StartsAsConfigured(c: Settings, m: Libm, r: State, t: State)
    requires Startable(c) && m.tiny > 0.0
    ensures var h := Initial(c, m);
      Times(h.transition[r][t], Sum(c.transitionPrior[r])) == c.transitionPrior[r][t]
      && h.prior[r] == h.transition[r] && h.counts[r][t] == Times(c.transitionPriorStrength, h.transition[r][t])
      && (Sum(c.initialProbability) > m.tiny ==>
        Times(h.belief[r], Sum(c.initialProbability)) == c.initialProbability[r])
      && h.means == c.emissionMean && h.variances == c.emissionVariance
      && h.hold == c.recoveryHold && h.remaining == 0
      && forall j: State :: h.belief[j] <= h.belief[h.state]
  {
    hide Sum, Times;
    var h, v := Initial(c, m), c.initialProbability;
    RatioFacts(c.transitionPrior[r][t], Sum(c.transitionPrior[r]));
    assert h.transition[r] == InitialRow(c, r);
    assert h.counts[r] == ScaledRow(InitialRow(c, r), c.transitionPriorStrength);
    if Sum(v) > m.tiny { RatioFacts(v[r], Sum(v)); }
    LargestIsMaximal(h.belief, 5);
    hide Normalized, LargestTo;
  }
}
