/** The configuration and its validator (src/config.c), which supplies the preconditions of
    the learner, of the codec and of the transfer. */
module Config {
  import opened Bits
  import opened Results
  import opened Wavelet
  import Codec

  const STATES: nat := 5

  type Vector = v: seq<real> | |v| == 5 witness [0.0, 0.0, 0.0, 0.0, 0.0]
  type Matrix = m: seq<Vector> | |m| == 5 witness [ZERO, ZERO, ZERO, ZERO, ZERO]

  const ZERO: Vector := [0.0, 0.0, 0.0, 0.0, 0.0]

  datatype Settings = Settings(
    baselineAlpha: real, baselineEpsilon: real, emissionAlpha: real, transitionForgetting: real,
    transitionSmoothing: real, transitionPriorStrength: real, minEmissionVariance: real, recoveryHold: nat,
    initialProbability: Vector, transitionPrior: Matrix, emissionMean: Matrix, emissionVariance: Matrix,
    windowSize: nat, waveletLevels: nat, thresholdGain: Vector, quantBits: seq<nat>, blockSzx: seq<byte>,
    samplingFactor: Vector, uriPath: seq<byte>, contentFormat: u32)

  predicate Shaped(c: Settings) {
    |c.quantBits| == STATES && |c.blockSzx| == STATES
  }

  function SumTo(v: seq<real>, n: nat): real
    requires n <= |v|
  {
    if n == 0 then 0.0 else SumTo(v, n - 1) + v[n - 1]
  }

  function Sum(v: Vector): real {
    v[0] + v[1] + v[2] + v[3] + v[4]
  }

  lemma SumOfAll(v: Vector)
    ensures SumTo(v, 5) == Sum(v)
  {
    assert SumTo(v, 1) == v[0];
    assert SumTo(v, 3) == SumTo(v, 1) + v[1] + v[2];
    assert SumTo(v, 5) == SumTo(v, 3) + v[3] + v[4];
  }

  predicate IsPowerOfTwo(value: nat) {
    value != 0 && And(value, value - 1) == 0
  }

  /** The bit trick of the source finds exactly the powers of two. */
  lemma {:induction false} PowerOfTwoMeans(value: nat)
    ensures IsPowerOfTwo(value) <==> exists k: nat :: value == Pow2(k)
    decreases value
  {
    if value == 0 {
    } else if value == 1 {
      assert value == Pow2(0);
    } else if value % 2 == 1 {
      OddAnd(value);
      OddPower(value);
    } else {
      PowerOfTwoMeans(value / 2);
      EvenAnd(value);
      EvenPower(value);
      hide And, Pow2;
    }
  }

  lemma OddPower(value: nat)
    requires value % 2 == 1 && value > 1
    ensures !exists k: nat :: value == Pow2(k)
  {
    forall k: nat
      ensures value != Pow2(k)
    {
      if k > 0 { assert Pow2(k) == 2 * Pow2(k - 1); }
    }
  }

  lemma EvenPower(value: nat)
    requires value % 2 == 0 && value >= 2
    ensures (exists k: nat :: value == Pow2(k)) <==> (exists k: nat :: value / 2 == Pow2(k))
  {
    if k: nat :| value == Pow2(k) {
      assert Pow2(0) == 1;
      assert Pow2(k) == 2 * Pow2(k - 1);
      assert value / 2 == Pow2(k - 1);
    }
    if k: nat :| value / 2 == Pow2(k) {
      assert Pow2(k + 1) == 2 * Pow2(k);
      assert value == Pow2(k + 1);
    }
  }

  lemma EvenAnd(value: nat)
    requires value % 2 == 0 && value >= 2
    ensures And(value, value - 1) == 2 * And(value / 2, value / 2 - 1)
  {
    assert (value - 1) / 2 == value / 2 - 1;
  }

  lemma OddAnd(value: nat)
    requires value % 2 == 1 && value > 1
    ensures And(value, value - 1) != 0
  {
    AndSelf(value / 2);
    assert And(value, value - 1) == 2 * And(value / 2, (value - 1) / 2) + (value % 2) * ((value - 1) % 2);
  }

  lemma {:induction false} AndSelf(a: nat)
    ensures And(a, a) == a
  {
    if a == 0 {
    } else {
      AndSelf(a / 2);
      assert And(a, a) == 2 * And(a / 2, a / 2) + (a % 2) * (a % 2);
      assert a % 2 == 0 || a % 2 == 1;
    }
  }

  predicate LearningOk(c: Settings) {
    0.0 < c.baselineAlpha < 1.0 && 0.0 < c.emissionAlpha < 1.0 && 0.0 < c.transitionForgetting <= 1.0
    && c.transitionSmoothing >= 0.0 && c.transitionPriorStrength > 0.0 && c.minEmissionVariance > 0.0
  }

  predicate WindowOk(c: Settings) {
    IsPowerOfTwo(c.windowSize) && c.windowSize <= MAX_WINDOW && 1 <= c.waveletLevels < 64
    && c.windowSize / Pow2(c.waveletLevels - 1) >= 8
  }

  predicate StateOk(c: Settings, s: nat)
    requires Shaped(c) && s < STATES
  {
    c.thresholdGain[s] >= 0.0 && 2 <= c.quantBits[s] <= 15 && c.blockSzx[s] <= 6
    && 0.0 < c.samplingFactor[s] <= 1.0
    && (forall m :: 0 <= m < 5 ==> c.emissionVariance[s][m] > 0.0)
    && (forall t :: 0 <= t < 5 ==> c.transitionPrior[s][t] >= 0.0)
    && Sum(c.transitionPrior[s]) > 0.0
  }

  predicate Valid(c: Settings)
    requires Shaped(c)
  {
    LearningOk(c) && WindowOk(c) && c.uriPath != []
    && (forall s :: 0 <= s < STATES ==> StateOk(c, s)) && Sum(c.initialProbability) > 0.0
  }

  method Validate(c: Settings) returns (r: Status)
    requires Shaped(c)
    ensures r == if Valid(c) then Success else Failure(Range)
  {
    hide IsPowerOfTwo, Pow2, Sum;
    if c.baselineAlpha <= 0.0 || c.baselineAlpha >= 1.0 || c.emissionAlpha <= 0.0 || c.emissionAlpha >= 1.0
       || c.transitionForgetting <= 0.0 || c.transitionForgetting > 1.0 || c.transitionSmoothing < 0.0
       || c.transitionPriorStrength <= 0.0 || c.minEmissionVariance <= 0.0 {
      return Failure(Range);
    }
    if !IsPowerOfTwo(c.windowSize) || c.windowSize > MAX_WINDOW || c.waveletLevels == 0 || c.waveletLevels >= 64
       || c.windowSize / Pow2(c.waveletLevels - 1) < 8 {
      return Failure(Range);
    }
    if |c.uriPath| == 0 { return Failure(Range); }
    var total := 0.0;
    for state := 0 to STATES
      invariant total == SumTo(c.initialProbability, state)
      invariant forall s :: 0 <= s < state ==> StateOk(c, s)
    {
      total := total + c.initialProbability[state];
      if c.thresholdGain[state] < 0.0 || c.quantBits[state] < 2 || c.quantBits[state] > 15 || c.blockSzx[state] > 6
         || c.samplingFactor[state] <= 0.0 || c.samplingFactor[state] > 1.0 {
        assert !StateOk(c, state);
        return Failure(Range);
      }
      for metric := 0 to 5
        invariant forall m :: 0 <= m < metric ==> c.emissionVariance[state][m] > 0.0
      {
        if c.emissionVariance[state][metric] <= 0.0 {
          assert !StateOk(c, state);
          return Failure(Range);
        }
      }
      var row := 0.0;
      for target := 0 to 5
        invariant forall t :: 0 <= t < target ==> c.transitionPrior[state][t] >= 0.0
        invariant row == SumTo(c.transitionPrior[state], target)
      {
        if c.transitionPrior[state][target] < 0.0 {
          assert !StateOk(c, state);
          return Failure(Range);
        }
        row := row + c.transitionPrior[state][target];
      }
      SumOfAll(c.transitionPrior[state]);
      if row <= 0.0 {
        assert !StateOk(c, state);
        return Failure(Range);
      }
    }
    SumOfAll(c.initialProbability);
    if total <= 0.0 { return Failure(Range); }
    return Success;
  }

  // ----- what a valid configuration guarantees -----

  lemma Pow2Quotient(a: nat, b: nat)
    requires b <= a
    ensures Pow2(a) / Pow2(b) == Pow2(a - b) && Pow2(a) % Pow2(b) == 0
  {
    Pow2Add(a - b, b);
    QuotientOfMultiple(Pow2(a - b), Pow2(b));
    assert Pow2(a) == Pow2(a - b) * Pow2(b);
    assert Pow2(a) == (Pow2(a) / Pow2(b)) * Pow2(b) + Pow2(a) % Pow2(b);
  }

  lemma SmallQuotient(k: nat, m: nat)
    requires k < m + 3
    ensures Pow2(k) / Pow2(m) < 8
  {
    if k < m {
      Codec.Pow2Monotonic(k + 1, m);
      SmallOverLarge(Pow2(k), Pow2(m));
    } else {
      Pow2Quotient(k, m);
      Codec.Pow2Monotonic(k - m, 2);
      assert Pow2(2) == 4;
    }
  }

  lemma SmallOverLarge(a: nat, b: nat)
    requires a < b
    ensures a / b == 0
  {
  }

  /** A validated window and depth are accepted by the transform, and so by the structural
      checks of the decoder. */
  lemma ValidWindowTransforms(c: Settings)
    requires WindowOk(c)
    ensures TransformOk(c.windowSize, c.waveletLevels, MAX_WINDOW)
  {
    PowerOfTwoMeans(c.windowSize);
    var k: nat :| c.windowSize == Pow2(k);
    DeepEnough(k, c.waveletLevels);
  }

  lemma DeepEnough(k: nat, l: nat)
    requires l >= 1 && Pow2(k) / Pow2(l - 1) >= 8
    ensures Pow2(k) % Pow2(l) == 0 && Pow2(k) / Pow2(l) >= 1 && Pow2(k) >= 8
  {
    if k < l + 2 {
      SmallQuotient(k, l - 1);
      assert false;
    }
    Pow2Quotient(k, l);
    Codec.Pow2Monotonic(3, k);
    assert Pow2(3) == 8;
  }

  function PolicyFor(c: Settings, state: nat): Codec.Policy
    requires Shaped(c) && state < STATES
  {
    Codec.Policy(c.windowSize, c.waveletLevels, c.thresholdGain[state], c.quantBits[state])
  }

  lemma ValidWindowEncodes(c: Settings, state: nat, x: seq<real>)
    requires Shaped(c) && Valid(c) && state < STATES && |x| == c.windowSize
    ensures Codec.Encodable(x, PolicyFor(c, state)) && PolicyFor(c, state).gain >= 0.0
  {
    ValidWindowTransforms(c);
    assert StateOk(c, state);
  }

  /** The windows and depths that are accepted, in powers of two: windows of 8 to 256 samples,
      and as many levels as leave at least two coefficients of the deepest approximation. */
  lemma WindowOkMeans(c: Settings)
    ensures WindowOk(c) <==> exists k: nat :: c.windowSize == Pow2(k) && k <= 8 && 1 <= c.waveletLevels <= k - 2
  {
    hide IsPowerOfTwo, Pow2;
    PowerOfTwoMeans(c.windowSize);
    if WindowOk(c) {
      var k: nat :| c.windowSize == Pow2(k);
      NotAbove(k);
      if k < c.waveletLevels - 1 + 3 { SmallQuotient(k, c.waveletLevels - 1); }
    }
    if k: nat :| c.windowSize == Pow2(k) && k <= 8 && 1 <= c.waveletLevels <= k - 2 {
      Codec.Pow2Monotonic(k, 8);
      PowerOfEight();
      Pow2Quotient(k, c.waveletLevels - 1);
      Codec.Pow2Monotonic(3, k - (c.waveletLevels - 1));
    }
  }

  lemma PowerOfEight()
    ensures Pow2(8) == 256 == MAX_WINDOW && Pow2(3) == 8 && Pow2(9) == 512
  {
  }

  lemma NotAbove(k: nat)
    requires Pow2(k) <= MAX_WINDOW
    ensures k <= 8
  {
    PowerOfEight();
    if k >= 9 { Codec.Pow2Monotonic(9, k); }
  }

  /** And what a validated configuration gives every state, in numbers. */
  lemma ValidatedState(c: Settings, s: nat)
    requires Shaped(c) && Valid(c) && s < STATES
    ensures 0.0 <= c.thresholdGain[s] && 0.0 < c.samplingFactor[s] <= 1.0
    ensures 2 <= c.quantBits[s] <= 15 && c.blockSzx[s] <= 6 && c.uriPath != []
    ensures forall m :: 0 <= m < 5 ==> c.emissionVariance[s][m] > 0.0 && c.transitionPrior[s][m] >= 0.0
    ensures exists t :: 0 <= t < 5 && c.transitionPrior[s][t] > 0.0
    ensures exists t :: 0 <= t < 5 && c.initialProbability[t] > 0.0
  {
    hide IsPowerOfTwo, Pow2;
    assert StateOk(c, s);
    SomePositive(c.transitionPrior[s]);
    SomePositive(c.initialProbability);
  }

  lemma SomePositive(v: Vector)
    requires Sum(v) > 0.0
    ensures exists t :: 0 <= t < 5 && v[t] > 0.0
  {
    assert v[0] > 0.0 || v[1] > 0.0 || v[2] > 0.0 || v[3] > 0.0 || v[4] > 0.0;
  }
}
