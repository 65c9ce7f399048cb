/** The online normaliser of src/metrics.c: exponentially weighted mean and variance per
    metric, and a clamped score. The square root is a parameter. */
module Normalizer {
  import opened Results
  import opened Reals
  import opened Config

  const METRICS: nat := 5
  const GOODPUT: nat := 4

  /** A raw measurement: a number, or an infinity or NaN. */
  datatype Reading = Finite(value: real) | NotFinite

  type Readings = r: seq<Reading> | |r| == 5
    witness [NotFinite, NotFinite, NotFinite, NotFinite, NotFinite]

  /** Baseline of one metric. */
  datatype Baseline = Baseline(mean: real, variance: real)

  function Start(x: real): Baseline {
    var scale := if Abs(x) * 0.1 < 1.0 then 1.0 else Abs(x) * 0.1;
    Baseline(x, scale * scale)
  }

  /** The variance before the floor is applied. */
  function Spread(b: Baseline, x: real, alpha: real): real {
    (1.0 - alpha) * (b.variance + alpha * (x - b.mean) * (x - b.mean))
  }

  function Moved(mean: real, x: real, alpha: real): real {
    mean + alpha * (x - mean)
  }

  function Next(b: Baseline, x: real, alpha: real, epsilon: real): Baseline {
    var v := Spread(b, x, alpha);
    Baseline(Moved(b.mean, x, alpha), if v < epsilon then epsilon else v)
  }

  function Clamp(z: real): (c: real)
    ensures -6.0 <= c <= 6.0
  {
    if z > 6.0 then 6.0 else if z < -6.0 then -6.0 else z
  }

  /** Score of a reading against the baseline before it; goodput is turned round. */
  function Score(b: Baseline, x: real, metric: nat, epsilon: real, sqrt: real -> real): (z: real)
    requires sqrt(b.variance + epsilon) != 0.0
    ensures -6.0 <= z <= 6.0
  {
    var z := (x - b.mean) / sqrt(b.variance + epsilon);
    Clamp(if metric == GOODPUT then -z else z)
  }

  ghost predicate Root(sqrt: real -> real) {
    forall x :: x > 0.0 ==> sqrt(x) > 0.0
  }

  predicate AllFinite(raw: Readings) {
    forall m :: 0 <= m < METRICS ==> raw[m].Finite?
  }

  class OnlineNormalizer {
    var mean: Vector
    var variance: Vector
    const alpha: real
    const epsilon: real
    var initialized: bool
    /** Every observation accepted so far, oldest first. */
    ghost var seen: seq<Vector>

    constructor (alpha: real, epsilon: real)
      ensures this.alpha == alpha && this.epsilon == epsilon && !initialized && seen == []
      ensures mean == ZERO == variance
    {
      this.alpha, this.epsilon := alpha, epsilon;
      mean, variance, initialized, seen := ZERO, ZERO, false, [];
    }

    function BaselineOf(metric: nat): Baseline
      requires metric < METRICS
      reads this
    {
      Baseline(mean[metric], variance[metric])
    }

    /** Each baseline is the recurrence over everything seen, and its variance is positive,
        whatever epsilon is. */
    ghost predicate Valid()
      reads this
    {
      0.0 < alpha < 1.0 && (initialized <==> seen != [])
      && (initialized ==> forall m :: 0 <= m < METRICS ==>
        BaselineOf(m) == Track(Column(seen, m), alpha, epsilon) && variance[m] > 0.0)
    }

    /** The next scores are quotients by roots of positive numbers. The configuration validator
        does not check epsilon; if it is not negative this always holds (see RootArgumentIff). */
    predicate Rootable()
      reads this
    {
      initialized ==> forall m :: 0 <= m < METRICS ==> variance[m] + epsilon > 0.0
    }

    /** The scores of a reading: all zero for the first one, else against the baselines. */
    ghost function ScoresFor(raw: Readings, sqrt: real -> real): (scores: Vector)
      requires Rootable() && Root(sqrt) && AllFinite(raw)
      reads this
      ensures forall m :: 0 <= m < METRICS ==> -6.0 <= scores[m] <= 6.0
    {
      if !initialized then ZERO else
        [Score(BaselineOf(0), raw[0].value, 0, epsilon, sqrt), Score(BaselineOf(1), raw[1].value, 1, epsilon, sqrt),
         Score(BaselineOf(2), raw[2].value, 2, epsilon, sqrt), Score(BaselineOf(3), raw[3].value, 3, epsilon, sqrt),
         Score(BaselineOf(4), raw[4].value, 4, epsilon, sqrt)]
    }

    method Update(raw: Readings, sqrt: real -> real) returns (r: Result<Vector>)
      requires Valid() && Root(sqrt) && (AllFinite(raw) ==> Rootable())
      modifies this
      ensures Valid()
      ensures !AllFinite(raw) ==> r == Err(Range) && unchanged(this)
      ensures AllFinite(raw) ==> initialized && seen == old(seen) + [Values(raw)]
      ensures AllFinite(raw) ==> r == Ok(old(ScoresFor(raw, sqrt)))
      ensures AllFinite(raw) && !old(initialized) ==> forall m :: 0 <= m < METRICS ==>
        BaselineOf(m) == Start(raw[m].value)
      ensures AllFinite(raw) && old(initialized) ==> forall m :: 0 <= m < METRICS ==>
        BaselineOf(m) == Next(old(BaselineOf(m)), raw[m].value, alpha, epsilon)
    {
      for metric := 0 to METRICS
        invariant forall m :: 0 <= m < metric ==> raw[m].Finite?
        invariant unchanged(this)
      {
        if raw[metric].NotFinite? { return Err(Range); }
      }
      if !initialized {
        Initialize(raw);
        return Ok(ZERO);
      }
      hide Score, Next;
      var normalized := Advance(raw, sqrt);
      assert normalized == [normalized[0], normalized[1], normalized[2], normalized[3], normalized[4]];
      return Ok(normalized);
    }

    method Initialize(raw: Readings)
      requires Valid() && !initialized && AllFinite(raw)
      modifies this
      ensures Valid() && initialized && seen == [Values(raw)]
      ensures forall m :: 0 <= m < METRICS ==> BaselineOf(m) == Start(raw[m].value)
    {
      hide Start;
      for metric := 0 to METRICS
        invariant forall m :: 0 <= m < metric ==> BaselineOf(m) == Start(raw[m].value)
      {
        var first := StartMetric(raw[metric].value);
        mean := mean[metric := first.mean];
        variance := variance[metric := first.variance];
      }
      initialized := true;
      seen := [Values(raw)];
      forall m | 0 <= m < METRICS
        ensures variance[m] > 0.0 && BaselineOf(m) == Track(Column(seen, m), alpha, epsilon)
      {
        StartPositive(raw[m].value);
        assert BaselineOf(m) == Start(raw[m].value);
        assert Column(seen, m) == [raw[m].value];
      }
    }

    method StartMetric(x: real) returns (b: Baseline)
      ensures b == Start(x)
    {
      var scale := Abs(x) * 0.1;
      if scale < 1.0 { scale := 1.0; }
      b := Baseline(x, scale * scale);
    }

    method Advance(raw: Readings, sqrt: real -> real) returns (normalized: Vector)
      requires Valid() && initialized && AllFinite(raw) && Rootable() && Root(sqrt)
      modifies this
      ensures Valid() && initialized && seen == old(seen) + [Values(raw)]
      ensures forall m :: 0 <= m < METRICS ==>
        BaselineOf(m) == Next(old(BaselineOf(m)), raw[m].value, alpha, epsilon)
        && normalized[m] == Score(old(BaselineOf(m)), raw[m].value, m, epsilon, sqrt)
    {
      hide Next, Score;
      normalized := ZERO;
      for metric := 0 to METRICS
        invariant initialized && seen == old(seen)
        invariant forall m :: 0 <= m < metric ==>
          BaselineOf(m) == Next(old(BaselineOf(m)), raw[m].value, alpha, epsilon) && variance[m] > 0.0
          && normalized[m] == Score(old(BaselineOf(m)), raw[m].value, m, epsilon, sqrt)
        invariant forall m :: metric <= m < METRICS ==> BaselineOf(m) == old(BaselineOf(m))
      {
        assert BaselineOf(metric) == old(BaselineOf(metric));
        var next, z := UpdateMetric(mean[metric], variance[metric], raw[metric].value, metric, sqrt);
        normalized := normalized[metric := z];
        mean := mean[metric := next.mean];
        variance := variance[metric := next.variance];
      }
      seen := seen + [Values(raw)];
      forall m | 0 <= m < METRICS
        ensures BaselineOf(m) == Track(Column(seen, m), alpha, epsilon)
      {
        TrackStep(old(seen), Values(raw), m, alpha, epsilon);
      }
    }

    method UpdateMetric(oldMean: real, oldVariance: real, x: real, metric: nat, sqrt: real -> real)
      returns (next: Baseline, z: real)
      requires oldVariance > 0.0 && oldVariance + epsilon > 0.0 && 0.0 < alpha < 1.0 && Root(sqrt)
      ensures next == Next(Baseline(oldMean, oldVariance), x, alpha, epsilon) && next.variance > 0.0
      ensures z == Score(Baseline(oldMean, oldVariance), x, metric, epsilon, sqrt)
    {
      var delta := x - oldMean;
      z := delta / sqrt(oldVariance + epsilon);
      if metric == GOODPUT { z := -z; }
      if z > 6.0 { z := 6.0; }
      if z < -6.0 { z := -6.0; }
      hide Score;
      next := MoveBaseline(oldMean, oldVariance, x, delta);
    }

    method MoveBaseline(oldMean: real, oldVariance: real, x: real, delta: real) returns (next: Baseline)
      requires oldVariance > 0.0 && 0.0 < alpha < 1.0 && delta == x - oldMean
      ensures next == Next(Baseline(oldMean, oldVariance), x, alpha, epsilon) && next.variance > 0.0
    {
      SpreadPositive(Baseline(oldMean, oldVariance), x, alpha);
      var newVariance := (1.0 - alpha) * (oldVariance + alpha * delta * delta);
      if newVariance < epsilon { newVariance := epsilon; }
      next := Baseline(oldMean + alpha * delta, newVariance);
    }
  }

  lemma FloorRoots(n: OnlineNormalizer)
    requires n.Valid() && n.epsilon >= 0.0
    ensures n.Rootable()
  {
  }

  function Values(raw: Readings): Vector
    requires AllFinite(raw)
  {
    [raw[0].value, raw[1].value, raw[2].value, raw[3].value, raw[4].value]
  }

  /** The history of one metric. */
  function Column(seen: seq<Vector>, metric: nat): (h: seq<real>)
    requires metric < METRICS
    ensures |h| == |seen|
  {
    seq(|seen|, i requires 0 <= i < |seen| => seen[i][metric])
  }

  lemma TrackStep(seen: seq<Vector>, v: Vector, metric: nat, alpha: real, epsilon: real)
    requires metric < METRICS && seen != []
    ensures Track(Column(seen + [v], metric), alpha, epsilon)
         == Next(Track(Column(seen, metric), alpha, epsilon), v[metric], alpha, epsilon)
  {
    hide Next, Start;
    var h := Column(seen + [v], metric);
    assert h[..|h| - 1] == Column(seen, metric);
  }

  lemma StartPositive(x: real)
    ensures Start(x).variance > 0.0
  {
    var scale := if Abs(x) * 0.1 < 1.0 then 1.0 else Abs(x) * 0.1;
    assert scale * scale >= 1.0 * scale;
  }

  // ----- the history behind the baseline -----

  /** The recurrence over a history of one metric, oldest reading first. */
  function Track(history: seq<real>, alpha: real, epsilon: real): Baseline
    requires history != []
    decreases |history|
  {
    if |history| == 1 then Start(history[0])
    else Next(Track(history[..|history| - 1], alpha, epsilon), history[|history| - 1], alpha, epsilon)
  }

  function Power(x: real, n: nat): real {
    if n == 0 then 1.0 else x * Power(x, n - 1)
  }

  /** The exponential weight of reading k of n: the first keeps what the others leave. */
  function Weight(n: nat, k: nat, alpha: real): real
    requires k < n
  {
    if k == 0 then Power(1.0 - alpha, n - 1) else alpha * Power(1.0 - alpha, n - 1 - k)
  }

  function WeightedTo(values: seq<real>, alpha: real, k: nat): real
    requires k <= |values|
  {
    if k == 0 then 0.0
    else WeightedTo(values, alpha, k - 1) + Times(Weight(|values|, k - 1, alpha), values[k - 1])
  }

  function MeanOf(history: seq<real>, alpha: real): real {
    WeightedTo(history, alpha, |history|)
  }

  function Deviations(history: seq<real>, m: real): (d: seq<real>)
    ensures |d| == |history|
  {
    seq(|history|, k requires 0 <= k < |history| => Times(history[k] - m, history[k] - m))
  }

  /** Weighted squared deviation from the weighted mean, plus what remains of the scale the
      first reading started with. */
  function VarianceOf(history: seq<real>, alpha: real): real
    requires history != []
  {
    WeightedTo(Deviations(history, MeanOf(history, alpha)), alpha, |history|)
    + Power(1.0 - alpha, |history| - 1) * Start(history[0]).variance
  }

  /** The floor never fires on this history. */
  predicate FloorSilent(history: seq<real>, alpha: real, epsilon: real)
    requires history != []
    decreases |history|
  {
    |history| == 1 ||
    (FloorSilent(history[..|history| - 1], alpha, epsilon)
     && Spread(Track(history[..|history| - 1], alpha, epsilon), history[|history| - 1], alpha) >= epsilon)
  }

  lemma WeightDecays(n: nat, k: nat, alpha: real)
    requires k < n
    ensures Weight(n + 1, k, alpha) == Times(1.0 - alpha, Weight(n, k, alpha))
  {
    var b := 1.0 - alpha;
    if k == 0 {
      assert Power(b, n) == b * Power(b, n - 1);
    } else {
      var p := Power(b, n - 1 - k);
      assert Power(b, n - k) == b * p;
      assert alpha * (b * p) == b * (alpha * p);
    }
  }

  lemma {:induction false} WeightedDecays(values: seq<real>, v: real, alpha: real, k: nat)
    requires k <= |values|
    ensures WeightedTo(values + [v], alpha, k) == Times(1.0 - alpha, WeightedTo(values, alpha, k))
  {
    if k == 0 {
      assert Times(1.0 - alpha, 0.0) == 0.0;
    } else {
      hide Weight, Times;
      var b, w, x := 1.0 - alpha, Weight(|values|, k - 1, alpha), values[k - 1];
      WeightedDecays(values, v, alpha, k - 1);
      WeightDecays(|values|, k - 1, alpha);
      TimesAssociates(b, w, x);
      TimesPlus(b, WeightedTo(values, alpha, k - 1), Times(w, x));
    }
  }

  /** One more value: every earlier weight shrinks by 1 - alpha, the new one has weight alpha. */
  lemma WeightedStep(values: seq<real>, v: real, alpha: real)
    requires values != []
    ensures WeightedTo(values + [v], alpha, |values| + 1)
         == Times(1.0 - alpha, WeightedTo(values, alpha, |values|)) + Times(alpha, v)
  {
    hide Times;
    WeightedDecays(values, v, alpha, |values|);
    LastWeight(|values|, alpha);
  }

  lemma LastWeight(n: nat, alpha: real)
    requires n >= 1
    ensures Weight(n + 1, n, alpha) == alpha
  {
    assert Power(1.0 - alpha, 0) == 1.0;
  }

  lemma WeightedOne(values: seq<real>, alpha: real)
    requires |values| == 1
    ensures WeightedTo(values, alpha, 1) == values[0]
  {
    assert WeightedTo(values, alpha, 0) == 0.0;
    assert Weight(1, 0, alpha) == Power(1.0 - alpha, 0) == 1.0;
  }

  function Squares(history: seq<real>): (s: seq<real>)
    ensures |s| == |history|
  {
    seq(|history|, k requires 0 <= k < |history| => Times(history[k], history[k]))
  }

  function Ones(n: nat): (s: seq<real>)
    ensures |s| == n
  {
    seq(n, _ => 1.0)
  }

  lemma {:induction false} WeightsSumToOne(n: nat, alpha: real)
    requires n >= 1
    ensures WeightedTo(Ones(n), alpha, n) == 1.0
  {
    if n == 1 {
      WeightedOne(Ones(1), alpha);
    } else {
      WeightsSumToOne(n - 1, alpha);
      assert Ones(n) == Ones(n - 1) + [1.0];
      WeightedStep(Ones(n - 1), 1.0, alpha);
    }
  }

  lemma DeviationTerm(w: real, x: real, m: real)
    ensures Times(w, Times(x - m, x - m))
         == Times(w, Times(x, x)) - Times(2.0 * m, Times(w, x)) + Times(m * m, Times(w, 1.0))
  {
    assert (x - m) * (x - m) == x * x - 2.0 * m * x + m * m;
    assert w * (x * x - 2.0 * m * x + m * m) == w * (x * x) - w * (2.0 * m * x) + w * (m * m);
  }

  lemma {:induction false} DeviationsExpand(history: seq<real>, m: real, alpha: real, k: nat)
    requires k <= |history|
    ensures WeightedTo(Deviations(history, m), alpha, k)
         == WeightedTo(Squares(history), alpha, k) - Times(2.0 * m, WeightedTo(history, alpha, k))
            + Times(m * m, WeightedTo(Ones(|history|), alpha, k))
  {
    if k == 0 {
      assert Times(2.0 * m, 0.0) == 0.0 == Times(m * m, 0.0);
    } else {
      hide Weight, Times;
      DeviationsExpand(history, m, alpha, k - 1);
      var w, x := Weight(|history|, k - 1, alpha), history[k - 1];
      DeviationTerm(w, x, m);
      TimesPlus(2.0 * m, WeightedTo(history, alpha, k - 1), Times(w, x));
      TimesPlus(m * m, WeightedTo(Ones(|history|), alpha, k - 1), Times(w, 1.0));
    }
  }

  /** The closed form in terms of first and second weighted moments. */
  lemma VarianceByMoments(history: seq<real>, alpha: real)
    requires history != []
    ensures var m := MeanOf(history, alpha);
      VarianceOf(history, alpha) == WeightedTo(Squares(history), alpha, |history|) - m * m
        + Power(1.0 - alpha, |history| - 1) * Start(history[0]).variance
  {
    hide WeightedTo, Power, Start;
    var m := MeanOf(history, alpha);
    DeviationsExpand(history, m, alpha, |history|);
    WeightsSumToOne(|history|, alpha);
    assert Times(2.0 * m, m) == 2.0 * (m * m) && Times(m * m, 1.0) == m * m;
  }

  lemma MomentAlgebra(a: real, q: real, m: real, p: real, x: real)
    ensures var b, d := 1.0 - a, x - m;
      b * ((q - m * m + p) + a * d * d)
      == (b * q + a * (x * x)) - (b * m + a * x) * (b * m + a * x) + b * p
  {
    var b, d := 1.0 - a, x - m;
    var mm, mx, xx := m * m, m * x, x * x;
    assert d * d == xx - 2.0 * mx + mm;
    assert a * d * d == a * xx - 2.0 * (a * mx) + a * mm;
    var am, ax, amx := a * mm, a * xx, a * mx;
    assert b * m + a * x == m + a * (x - m) == m + a * d;
    assert (m + a * d) * (m + a * d) == mm + 2.0 * (m * (a * d)) + (a * d) * (a * d);
    assert m * (a * d) == amx - am;
    assert (a * d) * (a * d) == a * (a * d * d) == a * (ax - 2.0 * amx + am);
    var y := ax - 2.0 * amx + am;
    assert b * ((q - mm + p) + y) == (q - mm + p) + y - a * (q - mm + p) - a * y;
    assert a * (q - mm + p) == a * q - am + a * p;
  }

  /** The one-pass recurrence is the closed form: the mean always, the variance as long as the
      floor is silent; and the floor can only raise the variance above the closed form. */
  lemma {:induction false} TrackIsClosedForm(history: seq<real>, alpha: real, epsilon: real)
    requires history != [] && 0.0 < alpha < 1.0
    ensures Track(history, alpha, epsilon).mean == MeanOf(history, alpha)
    ensures Track(history, alpha, epsilon).variance >= VarianceOf(history, alpha)
    ensures FloorSilent(history, alpha, epsilon) ==>
      Track(history, alpha, epsilon).variance == VarianceOf(history, alpha)
    decreases |history|
  {
    hide MeanOf, VarianceOf, Start, Spread, Moved;
    if |history| == 1 {
      FirstReading(history, alpha);
    } else {
      var n := |history| - 1;
      var h, x := history[..n], history[n];
      TrackIsClosedForm(h, alpha, epsilon);
      assert history == h + [x];
      ClosedFormStep(h, x, alpha);
      SpreadGrows(Track(h, alpha, epsilon), Baseline(MeanOf(h, alpha), VarianceOf(h, alpha)), x, alpha);
    }
  }

  lemma FirstReading(history: seq<real>, alpha: real)
    requires |history| == 1
    ensures Start(history[0]) == Baseline(MeanOf(history, alpha), VarianceOf(history, alpha))
  {
    hide WeightedTo, VarianceOf;
    VarianceByMoments(history, alpha);
    WeightedOne(history, alpha);
    WeightedOne(Squares(history), alpha);
    assert Power(1.0 - alpha, 0) == 1.0;
  }

  /** The closed form obeys the recurrence. */
  lemma ClosedFormStep(h: seq<real>, x: real, alpha: real)
    requires h != []
    ensures MeanOf(h + [x], alpha) == Moved(MeanOf(h, alpha), x, alpha)
    ensures VarianceOf(h + [x], alpha) == Spread(Baseline(MeanOf(h, alpha), VarianceOf(h, alpha)), x, alpha)
  {
    hide WeightedTo, VarianceOf, Start;
    var n, b := |h|, 1.0 - alpha;
    VarianceByMoments(h, alpha);
    VarianceByMoments(h + [x], alpha);
    SquaresStep(h, x);
    WeightedStep(h, x, alpha);
    WeightedStep(Squares(h), Times(x, x), alpha);
    PowerStep(b, n, Start(h[0]).variance);
    MomentAlgebra(alpha, WeightedTo(Squares(h), alpha, n), MeanOf(h, alpha),
                  Power(b, n - 1) * Start(h[0]).variance, x);
  }

  lemma SquaresStep(h: seq<real>, x: real)
    ensures Squares(h + [x]) == Squares(h) + [Times(x, x)]
  {
    hide Times;
  }

  lemma PowerStep(b: real, n: nat, v: real)
    requires n >= 1
    ensures Power(b, n) * v == b * (Power(b, n - 1) * v)
  {
  }

  lemma SpreadGrows(a: Baseline, b: Baseline, x: real, alpha: real)
    requires a.mean == b.mean && a.variance >= b.variance && 0.0 < alpha < 1.0
    ensures Spread(a, x, alpha) >= Spread(b, x, alpha)
    ensures a.variance == b.variance ==> Spread(a, x, alpha) == Spread(b, x, alpha)
  {
    var t := alpha * (x - a.mean) * (x - a.mean);
    TimesOrdered(1.0 - alpha, b.variance + t, a.variance + t);
  }

  /** So at any time the baseline of a metric is the closed form of all it was ever fed. */
  lemma BaselineIsClosedForm(n: OnlineNormalizer, metric: nat)
    requires n.Valid() && n.initialized && metric < METRICS
    ensures n.mean[metric] == MeanOf(Column(n.seen, metric), n.alpha)
    ensures n.variance[metric] >= VarianceOf(Column(n.seen, metric), n.alpha)
    ensures FloorSilent(Column(n.seen, metric), n.alpha, n.epsilon) ==>
      n.variance[metric] == VarianceOf(Column(n.seen, metric), n.alpha)
  {
    TrackIsClosedForm(Column(n.seen, metric), n.alpha, n.epsilon);
    assert n.BaselineOf(metric) == Track(Column(n.seen, metric), n.alpha, n.epsilon);
  }

  // ----- what a score means -----

  /** How far a reading is on the bad side of a baseline: above it, and for goodput below it. */
  function Excess(b: Baseline, x: real, metric: nat): real {
    if metric == GOODPUT then b.mean - x else x - b.mean
  }

  /** A score counts in roots how far the reading is on the bad side; from six roots on, either
      way, it is six. */
  lemma ScoreMeans(b: Baseline, x: real, metric: nat, epsilon: real, sqrt: real -> real)
    requires Root(sqrt) && b.variance + epsilon > 0.0
    ensures var root, z := sqrt(b.variance + epsilon), Score(b, x, metric, epsilon, sqrt);
      (-6.0 < z < 6.0 ==> Times(z, root) == Excess(b, x, metric))
      && (z == 6.0 <==> Excess(b, x, metric) >= 6.0 * root)
      && (z == -6.0 <==> Excess(b, x, metric) <= -6.0 * root)
  {
    var root, d := sqrt(b.variance + epsilon), x - b.mean;
    QuotientTimes(d, root);
    var z := if metric == GOODPUT then -(d / root) else d / root;
    assert Times(z, root) == Excess(b, x, metric) by {
      assert Times(-(d / root), root) == -Times(d / root, root);
    }
    assert Score(b, x, metric, epsilon, sqrt) == Clamp(z);
    InRoots(z, root);
  }

  lemma QuotientTimes(d: real, root: real)
    requires root > 0.0
    ensures Times(d / root, root) == d
  {
  }

  lemma InRoots(z: real, root: real)
    requires root > 0.0
    ensures z >= 6.0 <==> Times(z, root) >= 6.0 * root
    ensures z <= -6.0 <==> Times(z, root) <= -6.0 * root
  {
    CompareTimes(z, 6.0, root);
    CompareTimes(-6.0, z, root);
  }

  lemma CompareTimes(a: real, b: real, root: real)
    requires root > 0.0
    ensures a >= b <==> Times(a, root) >= Times(b, root)
  {
    if a >= b {
      ProductSign(a - b, root);
    } else {
      ProductSign(b - a, root);
    }
    assert Times(a - b, root) == Times(a, root) - Times(b, root) == -Times(b - a, root);
  }

  /** A score rises with the reading, and falls with goodput. */
  lemma ScoreMonotone(b: Baseline, x: real, y: real, metric: nat, epsilon: real, sqrt: real -> real)
    requires Root(sqrt) && b.variance + epsilon > 0.0 && x <= y
    ensures var zx, zy := Score(b, x, metric, epsilon, sqrt), Score(b, y, metric, epsilon, sqrt);
      if metric == GOODPUT then zy <= zx else zx <= zy
  {
    hide Score, Times;
    var root := sqrt(b.variance + epsilon);
    ScoreMeans(b, x, metric, epsilon, sqrt);
    ScoreMeans(b, y, metric, epsilon, sqrt);
    CompareTimes(Score(b, x, metric, epsilon, sqrt), Score(b, y, metric, epsilon, sqrt), root);
    CompareTimes(Score(b, y, metric, epsilon, sqrt), Score(b, x, metric, epsilon, sqrt), root);
  }

  /** So what an update reports of a reading is where it stands in the baselines before it, and
      of the first reading nothing. */
  lemma ScoresMean(n: OnlineNormalizer, raw: Readings, sqrt: real -> real, metric: nat)
    requires n.Rootable() && Root(sqrt) && AllFinite(raw) && metric < METRICS
    ensures !n.initialized ==> n.ScoresFor(raw, sqrt)[metric] == 0.0
    ensures n.initialized ==>
      var b, z := n.BaselineOf(metric), n.ScoresFor(raw, sqrt)[metric];
      var root, excess := sqrt(b.variance + n.epsilon), Excess(b, raw[metric].value, metric);
      (-6.0 < z < 6.0 ==> Times(z, root) == excess) && (z == 6.0 <==> excess >= 6.0 * root)
      && (z == -6.0 <==> excess <= -6.0 * root)
  {
    hide Score, Times, Excess;
    if n.initialized { ScoreMeans(n.BaselineOf(metric), raw[metric].value, metric, n.epsilon, sqrt); }
  }

  /** The first reading's scale is a tenth of it, and at least one. */
  lemma StartScale(x: real)
    ensures Start(x).mean == x && Start(x).variance >= 1.0 && 100.0 * Start(x).variance >= x * x
    ensures Start(x).variance == 1.0 || 100.0 * Start(x).variance == x * x
  {
    var t := Abs(x) * 0.1;
    assert 100.0 * (t * t) == x * x;
    if t < 1.0 { assert t * t <= t <= 1.0; } else { assert t * t >= t; }
  }

  /** The floor holds, and raises nothing else. */
  lemma FloorHolds(b: Baseline, x: real, alpha: real, epsilon: real)
    ensures var v := Next(b, x, alpha, epsilon).variance;
      v >= epsilon && v >= Spread(b, x, alpha) && (v == epsilon || v == Spread(b, x, alpha))
  {
  }

  // ----- the square root's argument -----

  lemma SpreadPositive(b: Baseline, x: real, alpha: real)
    requires b.variance > 0.0 && 0.0 < alpha < 1.0
    ensures Spread(b, x, alpha) > 0.0
  {
    SpreadForm(b, x, alpha);
    hide Times, Spread;
    var d := x - b.mean;
    SquareSign(d);
    ProductSign(alpha, Times(d, d));
    ProductSign(1.0 - alpha, b.variance + Times(alpha, Times(d, d)));
  }

  lemma SpreadForm(b: Baseline, x: real, alpha: real)
    ensures var d := x - b.mean;
      Spread(b, x, alpha) == Times(1.0 - alpha, b.variance + Times(alpha, Times(d, d)))
  {
    var d := x - b.mean;
    assert alpha * d * d == alpha * (d * d);
  }

  /** Whatever the floor, the variance is positive after every history. */
  lemma {:induction false} VariancePositive(history: seq<real>, alpha: real, epsilon: real)
    requires history != [] && 0.0 < alpha < 1.0
    ensures Track(history, alpha, epsilon).variance > 0.0
    decreases |history|
  {
    hide Start, Spread;
    if |history| == 1 {
      StartPositive(history[0]);
    } else {
      var n := |history| - 1;
      VariancePositive(history[..n], alpha, epsilon);
      SpreadPositive(Track(history[..n], alpha, epsilon), history[n], alpha);
    }
  }

  /** So many readings of zero. */
  function Zeroes(n: nat): (h: seq<real>)
    ensures |h| == n
  {
    seq(n, _ => 0.0)
  }

  lemma {:induction false} SteadyVariance(n: nat, alpha: real, epsilon: real)
    requires 0.0 < alpha < 1.0 && epsilon < 0.0
    ensures Track(Zeroes(n + 1), alpha, epsilon) == Baseline(0.0, Power(1.0 - alpha, n))
    ensures Power(1.0 - alpha, n) > 0.0
  {
    if n == 0 {
    } else {
      SteadyVariance(n - 1, alpha, epsilon);
      assert Zeroes(n + 1)[..n] == Zeroes(n);
      assert Spread(Baseline(0.0, Power(1.0 - alpha, n - 1)), 0.0, alpha) == Power(1.0 - alpha, n);
      SpreadPositive(Baseline(0.0, Power(1.0 - alpha, n - 1)), 0.0, alpha);
    }
  }

  /** Bernoulli's inequality for the decay. */
  lemma {:induction false} DecayBound(n: nat, alpha: real)
    requires 0.0 < alpha < 1.0
    ensures 0.0 < Power(1.0 - alpha, n) && Times(Power(1.0 - alpha, n), 1.0 + Times(n as real, alpha)) <= 1.0
  {
    if n == 0 {
    } else {
      DecayBound(n - 1, alpha);
      var p := Power(1.0 - alpha, n - 1);
      DecayStep(p, Power(1.0 - alpha, n), (n - 1) as real, n as real, alpha);
    }
  }

  lemma DecayStep(p: real, q: real, k: real, k1: real, alpha: real)
    requires q == (1.0 - alpha) * p && k1 == k + 1.0
    requires p > 0.0 && k >= 0.0 && 0.0 < alpha < 1.0 && Times(p, 1.0 + Times(k, alpha)) <= 1.0
    ensures q > 0.0 && Times(q, 1.0 + Times(k1, alpha)) <= 1.0
  {
    var a := 1.0 + k * alpha;
    ProductSign(1.0 - alpha, p);
    ProductSign(alpha, alpha);
    ProductSign(k + 1.0, Times(alpha, alpha));
    assert (1.0 - alpha) * (a + alpha) == a - Times(k + 1.0, Times(alpha, alpha));
    TimesOrdered(p, (1.0 - alpha) * (a + alpha), a);
    assert Times((1.0 - alpha) * p, a + alpha) == Times(p, (1.0 - alpha) * (a + alpha));
  }

  /** Exactly when the floor is not negative, the argument of the square root is positive at
      every step of every history. */
  lemma RootArgumentIff(alpha: real, epsilon: real)
    requires 0.0 < alpha < 1.0
    ensures (forall history: seq<real> :: history != [] ==> Track(history, alpha, epsilon).variance + epsilon > 0.0)
      <==> epsilon >= 0.0
  {
    hide Track;
    if epsilon >= 0.0 {
      forall history: seq<real> | history != []
        ensures Track(history, alpha, epsilon).variance + epsilon > 0.0
      {
        VariancePositive(history, alpha, epsilon);
      }
    } else {
      DecaysBelow(alpha, epsilon);
    }
  }

  /** Below zero, some steady history brings the argument down to zero or less. */
  lemma DecaysBelow(alpha: real, epsilon: real)
    requires 0.0 < alpha < 1.0 && epsilon < 0.0
    ensures exists history: seq<real> :: history != [] && Track(history, alpha, epsilon).variance + epsilon <= 0.0
  {
    var wanted := 1.0 / (-epsilon * alpha);
    assert -epsilon * alpha > 0.0 && wanted > 0.0;
    var n: nat := wanted.Floor + 1;
    DecayBound(n, alpha);
    SteadyVariance(n, alpha, epsilon);
    DecayedEnough(Power(1.0 - alpha, n), n as real, alpha, epsilon);
    assert Zeroes(n + 1) != [];
  }

  lemma DecayedEnough(p: real, n: real, alpha: real, epsilon: real)
    requires p > 0.0 && 0.0 < alpha < 1.0 && epsilon < 0.0 && n >= 1.0 / (-epsilon * alpha)
    requires -epsilon * alpha > 0.0
    requires Times(p, 1.0 + Times(n, alpha)) <= 1.0
    ensures p + epsilon <= 0.0
  {
    var e := -epsilon;
    assert n * (e * alpha) >= 1.0;
    assert e * (1.0 + n * alpha) == e + n * (e * alpha) >= 1.0;
    StrictlyMore(1.0 + n * alpha, p, e);
  }

  lemma StrictlyMore(a: real, p: real, e: real)
    requires a > 0.0 && a * e >= 1.0 && Times(p, a) <= 1.0
    ensures p <= e
  {
    if p > e { ProductSign(a, p - e); }
  }
}
