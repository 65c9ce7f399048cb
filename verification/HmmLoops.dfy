/** The model of src/hmm.c as an object whose loops update its tables, against the functions
    of module Hmm. */
module HmmLoops {
  import opened Reals
  import opened Config
  import opened Hmm
  import Learning

  method Total(v: Vector) returns (total: real)
    ensures total == Sum(v)
  {
    total := 0.0;
    for i := 0 to 5
      invariant total == SumTo(v, i)
    {
      total := total + v[i];
    }
    SumOfAll(v);
  }

  method Normalize(values: Vector, tiny: real) returns (v: Vector)
    requires tiny > 0.0
    ensures v == Normalized(values, tiny)
  {
    hide Sum;
    var total := Total(values);
    v := values;
    if total <= tiny {
      var uniform := 1.0 / 5.0;
      for i := 0 to 5
        invariant forall k :: 0 <= k < i ==> v[k] == 0.2
      {
        v := v[i := uniform];
      }
      return;
    }
    for i := 0 to 5
      invariant forall k :: 0 <= k < i ==> v[k] == values[k] / total
      invariant forall k :: i <= k < 5 ==> v[k] == values[k]
    {
      v := v[i := v[i] / total];
    }
  }

  method LargestProbability(v: Vector) returns (best: State)
    ensures best == Largest(v)
  {
    best := 0;
    for s := 1 to 5
      invariant best == LargestTo(v, s)
    {
      if v[s] > v[best] { best := s; }
    }
  }

  method EmissionLogProbability(h: Model, s: State, x: Vector, m: Libm) returns (r: real)
    requires h.minVariance > 0.0
    ensures r == LogDensity(h, s, x, m)
  {
    r := 0.0;
    for metric := 0 to 5
      invariant r == LogDensityTo(h, s, x, m, metric)
    {
      var variance := h.variances[s][metric];
      var delta := x[metric] - h.means[s][metric];
      if variance < h.minVariance { variance := h.minVariance; }
      r := r + -0.5 * (m.log(2.0 * PI * variance) + (delta * delta) / variance);
    }
  }

  /** Prediction and emission terms of every state, and the largest emission term. */
  method PredictAll(h: Model, x: Vector, m: Libm) returns (prediction: Vector, logs: Vector, maxLog: real)
    requires h.minVariance > 0.0
    ensures forall j: State :: prediction[j] == PredictTo(h.belief, h.transition, j, 5)
    ensures forall j: State :: logs[j] == LogDensity(h, j, x, m)
    ensures maxLog == MaxLogTo(h, x, m, 5)
  {
    hide LogDensity;
    prediction, logs, maxLog := ZERO, ZERO, m.lowest;
    for j := 0 to 5
      invariant maxLog == MaxLogTo(h, x, m, j)
      invariant forall t: State :: t < j ==> prediction[t] == PredictTo(h.belief, h.transition, t, 5)
      invariant forall t: State :: t < j ==> logs[t] == LogDensity(h, t, x, m)
    {
      var sum := 0.0;
      for i := 0 to 5
        invariant sum == PredictTo(h.belief, h.transition, j, i)
      {
        sum := sum + Times(h.belief[i], h.transition[i][j]);
      }
      var density := EmissionLogProbability(h, j, x, m);
      prediction, logs := prediction[j := sum], logs[j := density];
      if density > maxLog { maxLog := density; }
    }
  }

  method Correct(h: Model, x: Vector, m: Libm) returns (posterior: Vector)
    requires h.minVariance > 0.0 && m.tiny > 0.0
    ensures posterior == Posterior(h, x, m)
  {
    hide LogDensity, Normalized, MaxLogTo, PredictTo, Times;
    var prediction, logs, maxLog := PredictAll(h, x, m);
    var evidence := ZERO;
    for j := 0 to 5
      invariant forall t: State :: t < j ==> evidence[t] == Evidence(h, x, m, t)
    {
      evidence := evidence[j := Times(prediction[j], m.exp(logs[j] - maxLog))];
    }
    assert evidence == [Evidence(h, x, m, 0), Evidence(h, x, m, 1), Evidence(h, x, m, 2), Evidence(h, x, m, 3),
                        Evidence(h, x, m, 4)];
    posterior := Normalize(evidence, m.tiny);
  }

  method Blend(posterior: Vector, candidate: State, selected: State, tiny: real) returns (belief: Vector)
    requires tiny > 0.0
    ensures belief == Blended(posterior, candidate, selected, tiny)
  {
    hide Normalized;
    belief := posterior;
    if selected != candidate {
      for j := 0 to 5
        invariant forall k :: 0 <= k < j ==> belief[k] == posterior[k] * 0.5
        invariant forall k :: j <= k < 5 ==> belief[k] == posterior[k]
      {
        belief := belief[j := belief[j] * 0.5];
      }
      belief := belief[selected := belief[selected] + 0.5];
      assert belief == Halved(posterior, selected);
      belief := Normalize(belief, tiny);
    }
  }

  /** One row of update_transition: forget, count, smooth, divide. */
  method LearnRow(row: Vector, prior: Vector, forgetting: real, smoothing: real, bump: bool, to: State)
    returns (counts: Vector, transition: Vector)
    requires RowSound(row, prior) && 0.0 < forgetting <= 1.0 && smoothing >= 0.0
    ensures counts == CountRow(row, forgetting, bump, to)
    ensures Sum(Smoothed(counts, prior, smoothing)) > 0.0
    ensures transition == Proportions(Smoothed(counts, prior, smoothing))
  {
    hide Times, Sum;
    RowStaysSound(row, prior, forgetting, bump, to, smoothing);
    counts := row;
    for column := 0 to 5
      invariant forall k :: 0 <= k < column ==> counts[k] == Times(row[k], forgetting)
      invariant forall k :: column <= k < 5 ==> counts[k] == row[k]
    {
      counts := counts[column := Times(counts[column], forgetting)];
    }
    if bump { counts := counts[to := counts[to] + 1.0]; }
    assert counts == CountRow(row, forgetting, bump, to);
    ghost var smoothed := Smoothed(counts, prior, smoothing);
    var total := 0.0;
    for column := 0 to 5
      invariant total == SumTo(smoothed, column)
    {
      total := total + (counts[column] + Times(smoothing, prior[column]));
    }
    SumOfAll(smoothed);
    transition := ZERO;
    for column := 0 to 5
      invariant forall k :: 0 <= k < column ==> transition[k] == smoothed[k] / total
    {
      transition := transition[column := (counts[column] + Times(smoothing, prior[column])) / total];
    }
  }

  /** One state of update_emissions. */
  method LearnEmission(means: Vector, variances: Vector, rate: real, x: Vector, floor: real)
    returns (means': Vector, variances': Vector)
    ensures forall k :: 0 <= k < 5 ==> means'[k] == NextMean(means[k], rate, x[k])
    ensures forall k :: 0 <= k < 5 ==> variances'[k] == NextVariance(means[k], variances[k], rate, x[k], floor)
  {
    hide Times;
    means', variances' := means, variances;
    for metric := 0 to 5
      invariant forall k :: 0 <= k < metric ==> means'[k] == NextMean(means[k], rate, x[k])
      invariant forall k :: 0 <= k < metric ==>
        variances'[k] == NextVariance(means[k], variances[k], rate, x[k], floor)
      invariant forall k :: metric <= k < 5 ==> means'[k] == means[k] && variances'[k] == variances[k]
    {
      var mean := means'[metric];
      var delta := x[metric] - mean;
      var variance := variances'[metric];
      mean := mean + Times(rate, delta);
      variance := Times(1.0 - rate, variance) + Times(rate, Times(delta, delta));
      if variance < floor { variance := floor; }
      means', variances' := means'[metric := mean], variances'[metric := variance];
    }
  }

  /** One row of the initial tables: the prior over its total, and the counts it stands for. */
  method StartRow(prior: Vector, strength: real) returns (transition: Vector, counts: Vector)
    requires Sum(prior) > 0.0
    ensures transition == Proportions(prior) && counts == ScaledRow(transition, strength)
  {
    hide Sum, Times;
    var total := Total(prior);
    transition, counts := ZERO, ZERO;
    for column := 0 to 5
      invariant forall k :: 0 <= k < column ==>
        transition[k] == prior[k] / total && counts[k] == Times(strength, transition[k])
    {
      transition := transition[column := prior[column] / total];
      counts := counts[column := Times(strength, transition[column])];
    }
  }

  method StartTables(c: Settings) returns (transition: Matrix, counts: Matrix)
    requires Startable(c)
    ensures forall r: State :: transition[r] == InitialRow(c, r)
    ensures forall r: State :: counts[r] == ScaledRow(InitialRow(c, r), c.transitionPriorStrength)
  {
    hide Proportions, ScaledRow, Sum;
    transition, counts := [ZERO, ZERO, ZERO, ZERO, ZERO], [ZERO, ZERO, ZERO, ZERO, ZERO];
    for row := 0 to 5
      invariant forall r: State :: r < row ==> transition[r] == InitialRow(c, r)
      invariant forall r: State :: r < row ==> counts[r] == ScaledRow(InitialRow(c, r), c.transitionPriorStrength)
    {
      var t, k := StartRow(c.transitionPrior[row], c.transitionPriorStrength);
      transition, counts := transition[row := t], counts[row := k];
    }
  }

  class OnlineHmm {
    var belief: Vector
    var transition: Matrix
    var counts: Matrix
    var prior: Matrix
    var means: Matrix
    var variances: Matrix
    var emissionAlpha: real
    var forgetting: real
    var smoothing: real
    var minVariance: real
    var state: State
    var previous: State
    var hold: nat
    var remaining: nat
    var observations: nat

    function View(): Model
      reads this
    {
      Model(belief, transition, counts, prior, means, variances, emissionAlpha, forgetting, smoothing, minVariance,
            state, previous, hold, remaining)
    }

    constructor (c: Settings, m: Libm)
      requires Startable(c) && m.tiny > 0.0
      ensures View() == Initial(c, m) && observations == 0
    {
      var initial := Normalize(c.initialProbability, m.tiny);
      var t, k := StartTables(c);
      var first := LargestProbability(initial);
      belief, transition, counts, prior := initial, t, k, t;
      means, variances := c.emissionMean, c.emissionVariance;
      emissionAlpha, forgetting, smoothing := c.emissionAlpha, c.transitionForgetting, c.transitionSmoothing;
      minVariance, hold, remaining, observations := c.minEmissionVariance, c.recoveryHold, 0, 0;
      state, previous := first, first;
      new;
      assert View() == Initial(c, m) by {
        hide Normalized, InitialRow, ScaledRow, Sum;
      }
    }

    method UpdateTransition(from: State, to: State)
      requires Learnable(View())
      modifies this`counts, this`transition
      ensures forall r: State :: counts[r] == NextCounts(old(View()), from, to, r)
      ensures forall r: State :: transition[r] == NextRow(old(View()), from, to, r)
    {
      hide CountRow, Proportions, Smoothed, Sum, RowSound;
      ghost var h := View();
      for row := 0 to 5
        invariant forall r: State :: r < row ==> counts[r] == NextCounts(h, from, to, r)
        invariant forall r: State :: r < row ==> transition[r] == NextRow(h, from, to, r)
        invariant forall r: State :: row <= r ==> counts[r] == h.counts[r]
      {
        var k, t := LearnRow(counts[row], prior[row], forgetting, smoothing, row == from, to);
        counts, transition := counts[row := k], transition[row := t];
      }
    }

    method UpdateEmissions(x: Vector)
      modifies this`means, this`variances
      ensures forall s: State :: means[s] == NextMeans(old(View()), belief, x, s)
      ensures forall s: State :: variances[s] == NextVariances(old(View()), belief, x, s)
    {
      hide Times, NextMean, NextVariance;
      ghost var h := View();
      for s := 0 to 5
        invariant forall t: State :: t < s ==> means[t] == NextMeans(h, belief, x, t)
        invariant forall t: State :: t < s ==> variances[t] == NextVariances(h, belief, x, t)
        invariant forall t: State :: s <= t ==> means[t] == h.means[t] && variances[t] == h.variances[t]
      {
        var rate := Times(emissionAlpha, belief[s]);
        var mu, v := LearnEmission(means[s], variances[s], rate, x, minVariance);
        means, variances := means[s := mu], variances[s := v];
      }
    }

    /** The override: RECOVERY is entered only when leaving CONGESTED, and is held. */
    method Choose(candidate: State) returns (selected: State)
      modifies this`state, this`previous, this`remaining
      ensures (selected, remaining) == Select(old(state), old(remaining), hold, candidate)
      ensures state == selected && previous == old(state)
    {
      var from := state;
      selected := candidate;
      if from == CONGESTED && candidate != CONGESTED {
        selected := RECOVERY;
        remaining := hold;
      } else if from == RECOVERY {
        if candidate == CONGESTED {
          selected := CONGESTED;
          remaining := 0;
        } else if remaining > 0 {
          selected := RECOVERY;
          remaining := remaining - 1;
        } else if candidate == RECOVERY {
          selected := NORMAL;
        }
      } else if candidate == RECOVERY {
        selected := NORMAL;
      }
      previous, state := from, selected;
    }

    /** The first half of a step: the corrected belief, the override and the blend. */
    method Decide(x: Vector, m: Libm) returns (selected: State)
      requires Learnable(View()) && m.tiny > 0.0
      modifies this`state, this`previous, this`remaining, this`belief
      ensures (selected, remaining) == Select(old(state), old(remaining), hold, Candidate(old(View()), x, m))
      ensures state == selected && previous == old(state)
      ensures belief == Blended(Posterior(old(View()), x, m), Candidate(old(View()), x, m), selected, m.tiny)
    {
      hide Posterior, Blended, Learnable, Select;
      Learning.LearnableRow(View(), 0);
      var posterior := Correct(View(), x, m);
      var candidate := LargestProbability(posterior);
      selected := Choose(candidate);
      belief := Blend(posterior, candidate, selected, m.tiny);
    }

    method Step(x: Vector, m: Libm) returns (selected: State, probability: Vector)
      requires Learnable(View()) && m.tiny > 0.0
      modifies this
      ensures View() == Hmm.Step(old(View()), x, m)
      ensures Learnable(View())
      ensures selected == state && probability == belief
    {
      hide Posterior, Blended, NextCounts, NextRow, NextMeans, NextVariances, Learnable, Select, Hmm.Step, Candidate;
      ghost var h := View();
      Learning.StepKeepsLearnable(h, x, m);
      var from := state;
      selected := Decide(x, m);
      SameCounts(h, View(), from, selected);
      UpdateTransition(from, selected);
      SameEmissions(h, View(), belief, x);
      UpdateEmissions(x);
      observations := (observations + 1) % 0x1_0000_0000_0000_0000;
      probability := belief;
      TableStep(h, View(), x, m);
    }
  }

  /** What is learned about transitions depends on their tables and parameters only. */
  lemma SameCounts(h: Model, k: Model, from: State, to: State)
    requires Learnable(h)
    requires h.counts == k.counts && h.prior == k.prior && h.emissionAlpha == k.emissionAlpha
    requires h.forgetting == k.forgetting && h.smoothing == k.smoothing && h.minVariance == k.minVariance
    ensures Learnable(k)
    ensures forall r: State :: NextCounts(k, from, to, r) == NextCounts(h, from, to, r)
    ensures forall r: State :: NextRow(k, from, to, r) == NextRow(h, from, to, r)
  {
    hide CountRow, Proportions, Smoothed;
  }

  /** And likewise about emissions. */
  lemma SameEmissions(h: Model, k: Model, b: Vector, x: Vector)
    requires h.means == k.means && h.variances == k.variances
    requires h.emissionAlpha == k.emissionAlpha && h.minVariance == k.minVariance
    ensures forall s: State :: NextMeans(k, b, x, s) == NextMeans(h, b, x, s)
    ensures forall s: State :: NextVariances(k, b, x, s) == NextVariances(h, b, x, s)
  {
    hide NextMean, NextVariance, Times;
  }

  /** A model whose parts are those of the step is the step. */
  lemma TableStep(h: Model, next: Model, x: Vector, m: Libm)
    requires Learnable(h) && m.tiny > 0.0
    requires var (selected, remaining) := Select(h.state, h.remaining, h.hold, Candidate(h, x, m));
      next.state == selected && next.remaining == remaining && next.previous == h.state
      && next.belief == Blended(Posterior(h, x, m), Candidate(h, x, m), selected, m.tiny)
      && (forall r: State :: next.counts[r] == NextCounts(h, h.state, selected, r))
      && (forall r: State :: next.transition[r] == NextRow(h, h.state, selected, r))
      && (forall s: State :: next.means[s] == NextMeans(h, next.belief, x, s))
      && (forall s: State :: next.variances[s] == NextVariances(h, next.belief, x, s))
    requires next.prior == h.prior && next.emissionAlpha == h.emissionAlpha && next.forgetting == h.forgetting
    requires next.smoothing == h.smoothing && next.minVariance == h.minVariance && next.hold == h.hold
    ensures next == Hmm.Step(h, x, m)
  {
    hide Posterior, Blended, NextCounts, NextRow, NextMeans, NextVariances, Candidate, Select;
    var s := Hmm.Step(h, x, m);
    assert next.counts == s.counts;
    assert next.transition == s.transition;
    assert next.means == s.means;
    assert next.variances == s.variances;
  }
}
