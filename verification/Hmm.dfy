/** The online five-state hidden Markov model of src/hmm.c over exact reals, with exp and log
    as parameters: the functions its loops compute, and the object that runs them. */
module Hmm {
  import opened Reals
  import opened Config

  type State = s: nat | s < 5

  const GOOD: State := 0
  const NORMAL: State := 1
  const DEGRADED: State := 2
  const CONGESTED: State := 3
  const RECOVERY: State := 4

  const PI: real := 3.14159265358979323846

  /** exp and log, and the smallest normal double that normalize() compares with. */
  datatype Libm = Libm(exp: real -> real, log: real -> real, tiny: real, lowest: real)

  ghost predicate Sound(m: Libm) {
    m.tiny > 0.0 && forall x :: m.exp(x) > 0.0
  }

  datatype Model = Model(
    belief: Vector, transition: Matrix, counts: Matrix, prior: Matrix, means: Matrix, variances: Matrix,
    emissionAlpha: real, forgetting: real, smoothing: real, minVariance: real,
    state: State, previous: State, hold: nat, remaining: nat)

  // ----- vectors -----

  function Normalized(v: Vector, tiny: real): (n: Vector)
    requires tiny > 0.0
  {
    if Sum(v) <= tiny then [0.2, 0.2, 0.2, 0.2, 0.2]
    else [v[0] / Sum(v), v[1] / Sum(v), v[2] / Sum(v), v[3] / Sum(v), v[4] / Sum(v)]
  }

  function LargestTo(v: Vector, n: nat): State
    requires 1 <= n <= 5
  {
    if n == 1 then 0
    else if v[n - 1] > v[LargestTo(v, n - 1)] then n - 1 else LargestTo(v, n - 1)
  }

  function Largest(v: Vector): State {
    LargestTo(v, 5)
  }

  // ----- correction -----

  function PredictTo(belief: Vector, transition: Matrix, j: State, n: nat): real
    requires n <= 5
  {
    if n == 0 then 0.0
    else PredictTo(belief, transition, j, n - 1) + Times(belief[n - 1], transition[n - 1][j])
  }

  function Floored(v: real, floor: real): real {
    if v < floor then floor else v
  }

  function LogDensityTo(h: Model, s: State, x: Vector, m: Libm, n: nat): real
    requires n <= 5 && h.minVariance > 0.0
  {
    if n == 0 then 0.0
    else
      var v := Floored(h.variances[s][n - 1], h.minVariance);
      var d := x[n - 1] - h.means[s][n - 1];
      LogDensityTo(h, s, x, m, n - 1) + -0.5 * (m.log(2.0 * PI * v) + (d * d) / v)
  }

  function LogDensity(h: Model, s: State, x: Vector, m: Libm): real
    requires h.minVariance > 0.0
  {
    LogDensityTo(h, s, x, m, 5)
  }

  function MaxLogTo(h: Model, x: Vector, m: Libm, n: nat): real
    requires n <= 5 && h.minVariance > 0.0
  {
    if n == 0 then m.lowest
    else if LogDensity(h, n - 1, x, m) > MaxLogTo(h, x, m, n - 1) then LogDensity(h, n - 1, x, m)
    else MaxLogTo(h, x, m, n - 1)
  }

  function Evidence(h: Model, x: Vector, m: Libm, j: State): real
    requires h.minVariance > 0.0
  {
    Times(PredictTo(h.belief, h.transition, j, 5), m.exp(LogDensity(h, j, x, m) - MaxLogTo(h, x, m, 5)))
  }

  function Posterior(h: Model, x: Vector, m: Libm): Vector
    requires h.minVariance > 0.0 && m.tiny > 0.0
  {
    Normalized([Evidence(h, x, m, 0), Evidence(h, x, m, 1), Evidence(h, x, m, 2), Evidence(h, x, m, 3),
                Evidence(h, x, m, 4)], m.tiny)
  }

  // ----- the history-dependent override -----

  /** The selected state and the countdown, from the previous state and the candidate. */
  function Select(from: State, remaining: nat, hold: nat, candidate: State): (State, nat) {
    if from == CONGESTED && candidate != CONGESTED then (RECOVERY, hold)
    else if from == RECOVERY then
      if candidate == CONGESTED then (CONGESTED, 0)
      else if remaining > 0 then (RECOVERY, remaining - 1)
      else if candidate == RECOVERY then (NORMAL, remaining)
      else (candidate, remaining)
    else if candidate == RECOVERY then (NORMAL, remaining)
    else (candidate, remaining)
  }

  function Halved(v: Vector, selected: State): Vector {
    var h: Vector := [v[0] * 0.5, v[1] * 0.5, v[2] * 0.5, v[3] * 0.5, v[4] * 0.5];
    h[selected := h[selected] + 0.5]
  }

  function Blended(posterior: Vector, candidate: State, selected: State, tiny: real): Vector
    requires tiny > 0.0
  {
    if selected == candidate then posterior else Normalized(Halved(posterior, selected), tiny)
  }

  // ----- learning -----

  function CountRow(row: Vector, forgetting: real, bump: bool, to: State): Vector {
    var f: Vector := [Times(row[0], forgetting), Times(row[1], forgetting), Times(row[2], forgetting),
                      Times(row[3], forgetting), Times(row[4], forgetting)];
    if bump then f[to := f[to] + 1.0] else f
  }

  function Smoothed(counts: Vector, prior: Vector, smoothing: real): Vector {
    [counts[0] + Times(smoothing, prior[0]), counts[1] + Times(smoothing, prior[1]),
     counts[2] + Times(smoothing, prior[2]), counts[3] + Times(smoothing, prior[3]),
     counts[4] + Times(smoothing, prior[4])]
  }

  /** A vector over its sum. */
  function Proportions(v: Vector): Vector
    requires Sum(v) != 0.0
  {
    [v[0] / Sum(v), v[1] / Sum(v), v[2] / Sum(v), v[3] / Sum(v), v[4] / Sum(v)]
  }

  /** What keeps every learned row a division by something positive. */
  predicate RowSound(counts: Vector, prior: Vector) {
    (forall c :: 0 <= c < 5 ==> counts[c] >= 0.0 && prior[c] >= 0.0) && Sum(counts) > 0.0
  }

  predicate Learnable(h: Model) {
    0.0 < h.emissionAlpha < 1.0 && 0.0 < h.forgetting <= 1.0 && h.smoothing >= 0.0 && h.minVariance > 0.0
    && forall r :: 0 <= r < 5 ==> RowSound(h.counts[r], h.prior[r])
  }

  function NextCounts(h: Model, from: State, to: State, r: State): Vector {
    CountRow(h.counts[r], h.forgetting, r == from, to)
  }

  /** Forgetting and counting keep the mass of a row positive, and smoothing adds to it. */
  lemma RowStaysSound(row: Vector, prior: Vector, forgetting: real, bump: bool, to: State, smoothing: real)
    requires RowSound(row, prior) && 0.0 < forgetting <= 1.0 && smoothing >= 0.0
    ensures var next := CountRow(row, forgetting, bump, to);
      RowSound(next, prior) && Sum(next) == Times(Sum(row), forgetting) + (if bump then 1.0 else 0.0)
      && Sum(Smoothed(next, prior, smoothing)) >= Sum(next)
      && forall c :: 0 <= c < 5 ==> Smoothed(next, prior, smoothing)[c] >= 0.0
  {
    hide Times;
    forall c | 0 <= c < 5
      ensures Times(row[c], forgetting) >= 0.0 && Times(smoothing, prior[c]) >= 0.0
    {
      ProductSign(row[c], forgetting);
      ProductSign(smoothing, prior[c]);
    }
    ProductSign(Sum(row), forgetting);
    TimesSum(row, forgetting);
  }

  lemma TimesSum(v: Vector, f: real)
    ensures Times(Sum(v), f)
         == Times(v[0], f) + Times(v[1], f) + Times(v[2], f) + Times(v[3], f) + Times(v[4], f)
  {
  }

  function NextRow(h: Model, from: State, to: State, r: State): Vector
    requires Learnable(h)
  {
    RowStaysSound(h.counts[r], h.prior[r], h.forgetting, r == from, to, h.smoothing);
    Proportions(Smoothed(NextCounts(h, from, to, r), h.prior[r], h.smoothing))
  }

  function NextMean(mean: real, rate: real, x: real): real {
    mean + Times(rate, x - mean)
  }

  function NextVariance(mean: real, variance: real, rate: real, x: real, floor: real): real {
    Floored(Times(1.0 - rate, variance) + Times(rate, Times(x - mean, x - mean)), floor)
  }

  function NextMeans(h: Model, belief: Vector, x: Vector, s: State): Vector {
    var rate := Times(h.emissionAlpha, belief[s]);
    [NextMean(h.means[s][0], rate, x[0]), NextMean(h.means[s][1], rate, x[1]), NextMean(h.means[s][2], rate, x[2]),
     NextMean(h.means[s][3], rate, x[3]), NextMean(h.means[s][4], rate, x[4])]
  }

  function NextVariances(h: Model, belief: Vector, x: Vector, s: State): Vector {
    var rate := Times(h.emissionAlpha, belief[s]);
    [NextVariance(h.means[s][0], h.variances[s][0], rate, x[0], h.minVariance),
     NextVariance(h.means[s][1], h.variances[s][1], rate, x[1], h.minVariance),
     NextVariance(h.means[s][2], h.variances[s][2], rate, x[2], h.minVariance),
     NextVariance(h.means[s][3], h.variances[s][3], rate, x[3], h.minVariance),
     NextVariance(h.means[s][4], h.variances[s][4], rate, x[4], h.minVariance)]
  }

  // ----- one observation -----

  function Candidate(h: Model, x: Vector, m: Libm): State
    requires h.minVariance > 0.0 && m.tiny > 0.0
  {
    Largest(Posterior(h, x, m))
  }

  function Step(h: Model, x: Vector, m: Libm): Model
    requires Learnable(h) && m.tiny > 0.0
  {
    var posterior, candidate := Posterior(h, x, m), Candidate(h, x, m);
    var (selected, remaining) := Select(h.state, h.remaining, h.hold, candidate);
    var belief := Blended(posterior, candidate, selected, m.tiny);
    h.(belief := belief, state := selected, previous := h.state, remaining := remaining,
       counts := [NextCounts(h, h.state, selected, 0), NextCounts(h, h.state, selected, 1),
                  NextCounts(h, h.state, selected, 2), NextCounts(h, h.state, selected, 3),
                  NextCounts(h, h.state, selected, 4)],
       transition := [NextRow(h, h.state, selected, 0), NextRow(h, h.state, selected, 1),
                      NextRow(h, h.state, selected, 2), NextRow(h, h.state, selected, 3),
                      NextRow(h, h.state, selected, 4)],
       means := [NextMeans(h, belief, x, 0), NextMeans(h, belief, x, 1), NextMeans(h, belief, x, 2),
                 NextMeans(h, belief, x, 3), NextMeans(h, belief, x, 4)],
       variances := [NextVariances(h, belief, x, 0), NextVariances(h, belief, x, 1), NextVariances(h, belief, x, 2),
                     NextVariances(h, belief, x, 3), NextVariances(h, belief, x, 4)])
  }

  // ----- the start -----

  predicate Startable(c: Settings) {
    LearningOk(c) && forall r :: 0 <= r < 5 ==>
      (forall t :: 0 <= t < 5 ==> c.transitionPrior[r][t] >= 0.0) && Sum(c.transitionPrior[r]) > 0.0
  }

  function ScaledRow(row: Vector, a: real): Vector {
    [Times(a, row[0]), Times(a, row[1]), Times(a, row[2]), Times(a, row[3]), Times(a, row[4])]
  }

  function InitialRow(c: Settings, r: State): Vector
    requires Startable(c)
  {
    Proportions(c.transitionPrior[r])
  }

  function Initial(c: Settings, m: Libm): Model
    requires Startable(c) && m.tiny > 0.0
  {
    var belief := Normalized(c.initialProbability, m.tiny);
    var rows: Matrix := [InitialRow(c, 0), InitialRow(c, 1), InitialRow(c, 2), InitialRow(c, 3), InitialRow(c, 4)];
    var strength := c.transitionPriorStrength;
    Model(belief, rows,
          [ScaledRow(rows[0], strength), ScaledRow(rows[1], strength), ScaledRow(rows[2], strength),
           ScaledRow(rows[3], strength), ScaledRow(rows[4], strength)],
          rows, c.emissionMean, c.emissionVariance, c.emissionAlpha, c.transitionForgetting, c.transitionSmoothing,
          c.minEmissionVariance, Largest(belief), Largest(belief), c.recoveryHold, 0)
  }

  lemma ProportionsSum(v: Vector)
    requires Sum(v) > 0.0
    ensures Sum(Proportions(v)) == 1.0
    ensures forall c :: 0 <= c < 5 && v[c] >= 0.0 ==> Proportions(v)[c] >= 0.0
    ensures forall c :: 0 <= c < 5 && v[c] == 0.0 ==> Proportions(v)[c] == 0.0
  {
    hide Times;
    var t, p := Sum(v), Proportions(v);
    RatioFacts(v[0], t);
    RatioFacts(v[1], t);
    RatioFacts(v[2], t);
    RatioFacts(v[3], t);
    RatioFacts(v[4], t);
    TimesSum(p, t);
    UnitFactor(Sum(p), t);
  }

  lemma RatioFacts(a: real, t: real)
    requires t > 0.0
    ensures Times(a / t, t) == a
    ensures a >= 0.0 ==> a / t >= 0.0
    ensures a == 0.0 ==> a / t == 0.0
  {
  }

  lemma UnitFactor(s: real, t: real)
    requires Times(s, t) == t && t > 0.0
    ensures s == 1.0
  {
  }

  lemma ScaledRowSum(row: Vector, a: real)
    ensures Sum(ScaledRow(row, a)) == Times(a, Sum(row))
  {
  }

  /** A validated configuration starts a model that never divides by zero. */
  lemma InitialIsLearnable(c: Settings, m: Libm)
    requires Startable(c) && m.tiny > 0.0
    ensures Learnable(Initial(c, m))
    ensures forall r: State :: Sum(Initial(c, m).transition[r]) == 1.0
    ensures forall r: State :: Sum(Initial(c, m).counts[r]) == c.transitionPriorStrength
    ensures forall r: State, t: State :: Initial(c, m).transition[r][t] >= 0.0
  {
    hide Proportions, Sum, ScaledRow;
    var h := Initial(c, m);
    forall r: State
      ensures RowSound(h.counts[r], h.prior[r]) && Sum(h.transition[r]) == 1.0
      ensures Sum(h.counts[r]) == c.transitionPriorStrength
      ensures forall t: State :: h.transition[r][t] >= 0.0
    {
      InitialRowSound(c.transitionPrior[r], c.transitionPriorStrength);
      assert h.counts[r] == ScaledRow(InitialRow(c, r), c.transitionPriorStrength) && h.prior[r] == InitialRow(c, r);
    }
  }

  lemma InitialRowSound(prior: Vector, strength: real)
    requires (forall t :: 0 <= t < 5 ==> prior[t] >= 0.0) && Sum(prior) > 0.0 && strength > 0.0
    ensures var row := Proportions(prior);
      RowSound(ScaledRow(row, strength), row) && Sum(row) == 1.0 && Sum(ScaledRow(row, strength)) == strength
      && forall t :: 0 <= t < 5 ==> row[t] >= 0.0
  {
    hide Proportions, Sum;
    ProportionsSum(prior);
    ScaledRowSum(Proportions(prior), strength);
  }
}
