/** What the inferred state depends on: densities are Gaussian, posterior odds are prior odds
    times likelihood ratios, and among equally expected states the nearest one is inferred. */
module Inference {
  import opened Reals
  import opened Config
  import opened Hmm
  import opened Learning

  // ----- densities -----

  /** The variances of a state as the density uses them: none below the floor. */
  function FlooredVariances(h: Model, s: State): (v: Vector)
    requires h.minVariance > 0.0
    ensures forall k :: 0 <= k < 5 ==> v[k] >= h.minVariance && v[k] >= h.variances[s][k]
    ensures forall k :: 0 <= k < 5 ==> v[k] == h.minVariance || v[k] == h.variances[s][k]
  {
    seq(5, k requires 0 <= k < 5 => Floored(h.variances[s][k], h.minVariance))
  }

  predicate Positive(v: Vector) {
    forall k :: 0 <= k < 5 ==> v[k] > 0.0
  }

  /** Squared distance of a reading from a mean, in units of the variance. */
  function Gap(x: real, mean: real, v: real): real
    requires v > 0.0
  {
    Times(x - mean, x - mean) / v
  }

  function Distance(mean: Vector, v: Vector, x: Vector): real
    requires Positive(v)
  {
    Gap(x[0], mean[0], v[0]) + Gap(x[1], mean[1], v[1]) + Gap(x[2], mean[2], v[2]) + Gap(x[3], mean[3], v[3])
    + Gap(x[4], mean[4], v[4])
  }

  /** The logarithm of the normalising constant of a Gaussian, twice and negated. */
  function Volume(v: Vector, m: Libm): real {
    m.log(2.0 * PI * v[0]) + m.log(2.0 * PI * v[1]) + m.log(2.0 * PI * v[2]) + m.log(2.0 * PI * v[3])
    + m.log(2.0 * PI * v[4])
  }

  /** The log density is that of independent Gaussians. */
  lemma DensityIsGaussian(h: Model, s: State, x: Vector, m: Libm)
    requires h.minVariance > 0.0
    ensures var v := FlooredVariances(h, s);
      LogDensity(h, s, x, m) == -0.5 * (Volume(v, m) + Distance(h.means[s], v, x))
  {
    hide LogDensityTo, Gap, FlooredVariances;
    NoDensity(h, s, x, m);
    DensityStep(h, s, x, m, 1);
    DensityStep(h, s, x, m, 2);
    DensityStep(h, s, x, m, 3);
    DensityStep(h, s, x, m, 4);
    DensityStep(h, s, x, m, 5);
  }

  lemma NoDensity(h: Model, s: State, x: Vector, m: Libm)
    requires h.minVariance > 0.0
    ensures LogDensityTo(h, s, x, m, 0) == 0.0
  {
  }

  lemma DensityStep(h: Model, s: State, x: Vector, m: Libm, n: nat)
    requires h.minVariance > 0.0 && 1 <= n <= 5
    ensures var v := FlooredVariances(h, s)[n - 1];
      LogDensityTo(h, s, x, m, n)
      == LogDensityTo(h, s, x, m, n - 1) - 0.5 * (m.log(2.0 * PI * v) + Gap(x[n - 1], h.means[s][n - 1], v))
  {
    var v, d := FlooredVariances(h, s)[n - 1], x[n - 1] - h.means[s][n - 1];
    assert v == Floored(h.variances[s][n - 1], h.minVariance);
    hide FlooredVariances, Floored;
    assert Times(d, d) == d * d;
    hide Times;
  }

  /** Between states of equal variances only the distances count. */
  lemma DensityDifference(h: Model, i: State, j: State, x: Vector, m: Libm)
    requires h.minVariance > 0.0 && FlooredVariances(h, i) == FlooredVariances(h, j)
    ensures var v := FlooredVariances(h, i);
      LogDensity(h, i, x, m) - LogDensity(h, j, x, m)
      == -0.5 * (Distance(h.means[i], v, x) - Distance(h.means[j], v, x))
  {
    hide LogDensity, Distance, Volume, FlooredVariances;
    DensityIsGaussian(h, i, x, m);
    DensityIsGaussian(h, j, x, m);
  }

  /** A density is largest at its means, where only the variances count. */
  lemma DensityAtMeans(h: Model, s: State, x: Vector, m: Libm)
    requires h.minVariance > 0.0
    ensures LogDensity(h, s, h.means[s], m) == -0.5 * Volume(FlooredVariances(h, s), m)
    ensures x != h.means[s] ==> LogDensity(h, s, x, m) < LogDensity(h, s, h.means[s], m)
  {
    hide LogDensity, Volume, Floored;
    var mean, v := h.means[s], FlooredVariances(h, s);
    DensityIsGaussian(h, s, x, m);
    DensityIsGaussian(h, s, mean, m);
    NoDistance(mean, v);
    SomeDistance(mean, v, x);
    hide Distance;
  }

  lemma NoDistance(mean: Vector, v: Vector)
    requires Positive(v)
    ensures Distance(mean, v, mean) == 0.0
  {
  }

  lemma SomeDistance(mean: Vector, v: Vector, x: Vector)
    requires Positive(v)
    ensures x != mean ==> Distance(mean, v, x) > 0.0
  {
    GapSign(x[0], mean[0], v[0]);
    GapSign(x[1], mean[1], v[1]);
    GapSign(x[2], mean[2], v[2]);
    GapSign(x[3], mean[3], v[3]);
    GapSign(x[4], mean[4], v[4]);
    if x[0] == mean[0] && x[1] == mean[1] && x[2] == mean[2] && x[3] == mean[3] && x[4] == mean[4] {
      assert x == mean;
    }
    hide Gap;
  }

  lemma GapSign(x: real, mean: real, v: real)
    requires v > 0.0
    ensures Gap(x, mean, v) >= 0.0 && (x != mean ==> Gap(x, mean, v) > 0.0)
  {
    SquarePositive(x - mean);
    hide Times;
    QuotientSign(Times(x - mean, x - mean), v);
  }

  lemma QuotientSign(a: real, v: real)
    requires v > 0.0 && a >= 0.0
    ensures a / v >= 0.0 && (a > 0.0 ==> a / v > 0.0)
  {
  }

  lemma SquarePositive(d: real)
    ensures Times(d, d) >= 0.0 && (d != 0.0 ==> Times(d, d) > 0.0)
  {
    if d >= 0.0 {
      ProductSign(d, d);
    } else {
      ProductSign(-d, -d);
      assert Times(-d, -d) == Times(d, d);
    }
  }

  // ----- predictions -----

  function Predictions(h: Model): Vector {
    [PredictTo(h.belief, h.transition, 0, 5), PredictTo(h.belief, h.transition, 1, 5),
     PredictTo(h.belief, h.transition, 2, 5), PredictTo(h.belief, h.transition, 3, 5),
     PredictTo(h.belief, h.transition, 4, 5)]
  }

  lemma {:induction false} PredictionOfCertainty(belief: Vector, t: Matrix, s: State, j: State, n: nat)
    requires n <= 5 && forall i: State :: belief[i] == if i == s then 1.0 else 0.0
    ensures PredictTo(belief, t, j, n) == if s < n then t[s][j] else 0.0
  {
    if n == 0 {
    } else {
      PredictionOfCertainty(belief, t, s, j, n - 1);
      TimesOfOne(t[n - 1][j]);
      TimesOfZero(t[n - 1][j]);
      hide Times;
    }
  }

  /** A certain belief predicts the row of its state. */
  lemma CertaintyPredictsItsRow(h: Model, s: State)
    requires forall i: State :: h.belief[i] == if i == s then 1.0 else 0.0
    ensures Predictions(h) == h.transition[s]
  {
    PredictionOfCertainty(h.belief, h.transition, s, 0, 5);
    PredictionOfCertainty(h.belief, h.transition, s, 1, 5);
    PredictionOfCertainty(h.belief, h.transition, s, 2, 5);
    PredictionOfCertainty(h.belief, h.transition, s, 3, 5);
    PredictionOfCertainty(h.belief, h.transition, s, 4, 5);
    hide PredictTo;
    var t := h.transition[s];
    assert t == [t[0], t[1], t[2], t[3], t[4]];
  }

  /** Prediction moves mass along the rows and loses none: distributions predict distributions. */
  lemma PredictionConserves(h: Model)
    requires Stochastic(h.belief) && forall r: State :: Stochastic(h.transition[r])
    ensures Stochastic(Predictions(h))
  {
    hide PredictTo, Sum;
    forall j: State
      ensures PredictTo(h.belief, h.transition, j, 5) >= 0.0
    {
      PredictionNonNegative(h.belief, h.transition, j, 5);
    }
    PredictionMass(h.belief, h.transition, 5);
    WholeMass(h.belief);
    StochasticSum(h.belief);
    assert Sum(Predictions(h)) == Mass(h.belief, 5) by { PredictionSum(h); }
  }

  function Mass(v: Vector, n: nat): real
    requires n <= 5
  {
    if n == 0 then 0.0 else Mass(v, n - 1) + v[n - 1]
  }

  lemma WholeMass(v: Vector)
    ensures Mass(v, 5) == Sum(v)
  {
    assert Mass(v, 1) == v[0];
    assert Mass(v, 3) == Mass(v, 1) + v[1] + v[2];
    assert Mass(v, 5) == Mass(v, 3) + v[3] + v[4];
  }

  function Column(belief: Vector, t: Matrix, n: nat): Vector
    requires n <= 5
  {
    [PredictTo(belief, t, 0, n), PredictTo(belief, t, 1, n), PredictTo(belief, t, 2, n), PredictTo(belief, t, 3, n),
     PredictTo(belief, t, 4, n)]
  }

  lemma PredictionSum(h: Model)
    requires forall r: State :: Stochastic(h.transition[r])
    ensures Sum(Predictions(h)) == Mass(h.belief, 5)
  {
    PredictionMass(h.belief, h.transition, 5);
    hide PredictTo, Mass;
  }

  lemma {:induction false} PredictionMass(belief: Vector, t: Matrix, n: nat)
    requires n <= 5 && forall r: State :: Stochastic(t[r])
    ensures Sum(Column(belief, t, n)) == Mass(belief, n)
  {
    if n == 0 {
    } else {
      PredictionMass(belief, t, n - 1);
      RowMass(belief[n - 1], t[n - 1]);
      hide Times;
    }
  }

  lemma RowMass(b: real, row: Vector)
    requires Stochastic(row)
    ensures Times(b, row[0]) + Times(b, row[1]) + Times(b, row[2]) + Times(b, row[3]) + Times(b, row[4]) == b
  {
    TimesPlus(b, row[0], row[1]);
    TimesPlus(b, row[0] + row[1], row[2]);
    TimesPlus(b, row[0] + row[1] + row[2], row[3]);
    TimesPlus(b, row[0] + row[1] + row[2] + row[3], row[4]);
    TimesOfOne(b);
    TimesCommutes(b, 1.0);
    hide Times;
  }

  // ----- posteriors -----

  /** What an exponential is, as far as odds need it. */
  ghost predicate Exponential(m: Libm) {
    forall a, b :: m.exp(a + b) == Times(m.exp(a), m.exp(b))
  }

  /** Bayes: the posterior is proportional to the prediction times the emission density,
      whatever constant the log densities were shifted by. */
  lemma PosteriorOdds(h: Model, x: Vector, m: Libm, i: State, j: State)
    requires h.minVariance > 0.0 && m.tiny > 0.0 && Exponential(m) && Sum(Evidences(h, x, m)) > m.tiny
    ensures var p, q := Predictions(h), Posterior(h, x, m);
      Times(q[i], Times(p[j], m.exp(LogDensity(h, j, x, m))))
      == Times(q[j], Times(p[i], m.exp(LogDensity(h, i, x, m))))
  {
    hide Sum, LogDensity, PredictTo, Normalized, Times, MaxLogTo, Exponential;
    var v, p, peak := Evidences(h, x, m), Predictions(h), MaxLogTo(h, x, m, 5);
    NormalizedAt(v, m.tiny, i);
    NormalizedAt(v, m.tiny, j);
    Unshifted(h, x, m, i, peak);
    Unshifted(h, x, m, j, peak);
    CrossRatio(v[i], v[j], Sum(v), m.exp(peak));
  }

  lemma Unshifted(h: Model, x: Vector, m: Libm, j: State, peak: real)
    requires h.minVariance > 0.0 && Exponential(m) && peak == MaxLogTo(h, x, m, 5)
    ensures Times(Predictions(h)[j], m.exp(LogDensity(h, j, x, m))) == Times(Evidences(h, x, m)[j], m.exp(peak))
  {
    hide LogDensity, PredictTo, Times, MaxLogTo, Exponential;
    var log := LogDensity(h, j, x, m);
    ShiftedBack(m, log, peak);
    TimesAssociates(Predictions(h)[j], m.exp(log - peak), m.exp(peak));
  }

  lemma ShiftedBack(m: Libm, a: real, b: real)
    requires Exponential(m)
    ensures m.exp(a) == Times(m.exp(a - b), m.exp(b))
  {
    hide Times;
    assert m.exp((a - b) + b) == Times(m.exp(a - b), m.exp(b));
    assert (a - b) + b == a;
  }

  lemma CrossRatio(a: real, b: real, t: real, e: real)
    requires t > 0.0
    ensures Times(a / t, Times(b, e)) == Times(b / t, Times(a, e))
  {
    RatioFacts(a, t);
    RatioFacts(b, t);
    hide Times;
    TimesCommutes(a / t, t);
    TimesCommutes(b / t, t);
    TimesAssociates(a / t, Times(b / t, t), e);
    TimesAssociates(a / t, b / t, t);
    TimesAssociates(b / t, a / t, t);
    TimesAssociates(b / t, Times(a / t, t), e);
    TimesCommutes(a / t, b / t);
    TimesAssociates(a / t, b, e);
    TimesAssociates(b / t, a, e);
  }

  /** The candidate is the first state of largest posterior. */
  lemma CandidateIsLargest(h: Model, x: Vector, m: Libm)
    requires h.minVariance > 0.0 && m.tiny > 0.0
    ensures var c, q := Candidate(h, x, m), Posterior(h, x, m);
      (forall j: State :: q[j] <= q[c]) && forall j: State :: j < c ==> q[j] < q[c]
  {
    hide Posterior;
    LargestIsMaximal(Posterior(h, x, m), 5);
    LargestIsFirst(Posterior(h, x, m), 5);
  }

  lemma {:induction false} LargestIsFirst(v: Vector, n: nat)
    requires 1 <= n <= 5
    ensures LargestTo(v, n) < n && forall i :: 0 <= i < LargestTo(v, n) ==> v[i] < v[LargestTo(v, n)]
  {
    if n == 1 {
    } else {
      LargestIsFirst(v, n - 1);
      LargestIsMaximal(v, n - 1);
    }
  }

  /** With mass, the candidate has the largest evidence. */
  lemma CandidateHasEvidence(h: Model, x: Vector, m: Libm, j: State)
    requires h.minVariance > 0.0 && m.tiny > 0.0 && Sum(Evidences(h, x, m)) > m.tiny
    ensures Evidences(h, x, m)[j] <= Evidences(h, x, m)[Candidate(h, x, m)]
  {
    var v, c := Evidences(h, x, m), Candidate(h, x, m);
    CandidateIsLargest(h, x, m);
    NormalizedAt(v, m.tiny, j);
    NormalizedAt(v, m.tiny, c);
    hide Sum, Evidence, Candidate, Normalized;
    QuotientOrder(v[j], v[c], Sum(v));
  }

  lemma QuotientOrder(a: real, b: real, t: real)
    requires t > 0.0 && a / t <= b / t
    ensures a <= b
  {
    TimesOrdered(t, a / t, b / t);
    assert Times(t, a / t) == a && Times(t, b / t) == b;
  }

  ghost predicate Increasing(m: Libm) {
    forall a, b :: a < b ==> m.exp(a) < m.exp(b)
  }

  lemma {:induction false} MaximumIsAttained(h: Model, x: Vector, m: Libm, n: nat) returns (s: State)
    requires n <= 5 && h.minVariance > 0.0
    requires exists j: State :: j < n && LogDensity(h, j, x, m) > m.lowest
    ensures s < n && MaxLogTo(h, x, m, n) == LogDensity(h, s, x, m)
  {
    hide LogDensity;
    var j: State :| j < n && LogDensity(h, j, x, m) > m.lowest;
    if n == 1 {
      s := 0;
      assert MaxLogTo(h, x, m, 0) == m.lowest;
    } else if LogDensity(h, n - 1, x, m) > MaxLogTo(h, x, m, n - 1) {
      s := n - 1;
    } else {
      if j == n - 1 { AboveLowest(h, x, m, n - 1); }
      s := MaximumIsAttained(h, x, m, n - 1);
    }
  }

  /** A maximum above the least is that of some state. */
  lemma {:induction false} AboveLowest(h: Model, x: Vector, m: Libm, n: nat)
    requires n <= 5 && h.minVariance > 0.0 && MaxLogTo(h, x, m, n) > m.lowest
    ensures exists j: State :: j < n && LogDensity(h, j, x, m) > m.lowest
  {
    hide LogDensity;
    if n == 0 {
    } else if LogDensity(h, n - 1, x, m) > MaxLogTo(h, x, m, n - 1) {
      LowestIsLeast(h, x, m, n - 1);
      var j: State := n - 1;
      assert LogDensity(h, j, x, m) > m.lowest;
    } else {
      AboveLowest(h, x, m, n - 1);
    }
  }

  lemma {:induction false} LowestIsLeast(h: Model, x: Vector, m: Libm, n: nat)
    requires n <= 5 && h.minVariance > 0.0
    ensures MaxLogTo(h, x, m, n) >= m.lowest
  {
    hide LogDensity;
    if n == 0 {
    } else {
      LowestIsLeast(h, x, m, n - 1);
    }
  }

  /** The evidence has mass as soon as the predictions have and some density is above the least
      from which the maximum starts. */
  lemma EvidenceHasMass(h: Model, x: Vector, m: Libm)
    requires h.minVariance > 0.0 && Sound(m) && m.exp(0.0) == 1.0
    requires forall s: State :: Predictions(h)[s] > m.tiny
    requires exists j: State :: LogDensity(h, j, x, m) > m.lowest
    ensures Sum(Evidences(h, x, m)) > m.tiny
  {
    hide LogDensity, PredictTo, MaxLogTo, Predictions;
    var s := MaximumIsAttained(h, x, m, 5);
    var v := Evidences(h, x, m);
    forall j: State
      ensures v[j] > 0.0
    {
      PredictionAt(h, j);
      ProductSign(Predictions(h)[j], m.exp(LogDensity(h, j, x, m) - MaxLogTo(h, x, m, 5)));
    }
    PredictionAt(h, s);
    TimesOfOne(Predictions(h)[s]);
    TimesCommutes(Predictions(h)[s], 1.0);
    assert v[s] == Predictions(h)[s];
    hide Times, Evidence;
    OneOfPositive(v, s);
  }

  lemma PredictionAt(h: Model, j: State)
    ensures Predictions(h)[j] == PredictTo(h.belief, h.transition, j, 5)
  {
    hide PredictTo;
  }

  lemma OneOfPositive(v: Vector, s: State)
    requires Positive(v)
    ensures Sum(v) >= v[s]
  {
  }

  /** Among states that are equally expected and equally spread, the inferred candidate is one
      whose means are nearest to the observation. */
  lemma NearestIsCandidate(h: Model, x: Vector, m: Libm, v: Vector, p: real)
    requires h.minVariance > 0.0 && Sound(m) && Increasing(m) && m.exp(0.0) == 1.0 && Positive(v) && p > m.tiny
    requires forall s: State :: FlooredVariances(h, s) == v && Predictions(h)[s] == p
    requires exists j: State :: LogDensity(h, j, x, m) > m.lowest
    ensures forall j: State :: Distance(h.means[Candidate(h, x, m)], v, x) <= Distance(h.means[j], v, x)
  {
    hide Sum, Candidate, LogDensity, FlooredVariances, Distance, Evidences, Predictions, MaxLogTo;
    EvidenceHasMass(h, x, m);
    forall j: State
      ensures Distance(h.means[Candidate(h, x, m)], v, x) <= Distance(h.means[j], v, x)
    {
      CandidateHasEvidence(h, x, m, j);
      EvidenceNearer(h, x, m, Candidate(h, x, m), j, v, p);
    }
  }

  /** Of two such states the one with more evidence is no further. */
  lemma EvidenceNearer(h: Model, x: Vector, m: Libm, i: State, j: State, v: Vector, p: real)
    requires h.minVariance > 0.0 && Increasing(m) && Positive(v) && p > 0.0
    requires FlooredVariances(h, i) == v == FlooredVariances(h, j) && Predictions(h)[i] == p == Predictions(h)[j]
    requires Evidences(h, x, m)[j] <= Evidences(h, x, m)[i]
    ensures Distance(h.means[i], v, x) <= Distance(h.means[j], v, x)
  {
    hide LogDensity, FlooredVariances, Distance, PredictTo, MaxLogTo, Times, Predictions;
    PredictionAt(h, i);
    PredictionAt(h, j);
    DensityDifference(h, i, j, x, m);
    var peak := MaxLogTo(h, x, m, 5);
    var a, b := LogDensity(h, i, x, m) - peak, LogDensity(h, j, x, m) - peak;
    if a < b { Scaled(p, m.exp(a), m.exp(b)); }
  }

  lemma Scaled(p: real, a: real, b: real)
    requires p > 0.0 && a < b
    ensures Times(p, a) < Times(p, b)
  {
    ProductSign(p, b - a);
    TimesPlus(p, a, b - a);
    assert a + (b - a) == b;
    hide Times;
  }
}
