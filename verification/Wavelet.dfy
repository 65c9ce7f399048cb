/** The periodic multilevel db4 transform of src/wavelet_db4.c over exact reals, for any
    8-tap low-pass filter: the loops, and the functions they compute. */
module Wavelet {
  import opened Bits
  import opened Results
  import opened Reals

  type Filter = f: seq<real> | |f| == 8 witness seq(8, _ => 0.0)

  const MAX_WINDOW: nat := 256

  /** The decimals of the source. */
  const DB4_LOW: Filter := [
    -0.010597401784997278, 0.032883011666982945, 0.030841381835986965, -0.187034811718881140,
    -0.027983769416983850, 0.630880767929858700, 0.714846570552915400, 0.230377813308896400]

  /** The quadrature mirror of a low-pass filter. */
  function High(low: Filter): Filter {
    seq(8, k requires 0 <= k < 8 => if k % 2 == 1 then low[7 - k] else -low[7 - k])
  }

  predicate TransformOk(count: nat, levels: nat, scratchCount: nat) {
    && 8 <= count <= MAX_WINDOW && 1 <= levels < 64 && count <= scratchCount
    && count / Pow2(levels - 1) >= 8
    && count % Pow2(levels) == 0 && count / Pow2(levels) >= 1
  }

  method ValidateTransform(count: nat, levels: nat, scratchCount: nat) returns (r: Status)
    ensures r == if TransformOk(count, levels, scratchCount) then Success else Failure(Range)
  {
    if count < 8 || count > MAX_WINDOW || levels == 0 || levels >= 64 || scratchCount < count {
      return Failure(Range);
    }
    if count / Pow2(levels - 1) < 8 {
      return Failure(Range);
    }
    var divisor := Pow2(levels);
    if count % divisor != 0 || count / divisor < 1 {
      return Failure(Range);
    }
    return Success;
  }

  /** Every level halves an even length of at least eight. */
  predicate Splits(n: nat, levels: nat)
    decreases levels
  {
    levels == 0 || (n >= 8 && n % 2 == 0 && Splits(n / 2, levels - 1))
  }

  /** The length of the approximation band after the given number of levels. */
  function BandLength(n: nat, levels: nat): (m: nat)
    ensures m <= n
    decreases levels
  {
    if levels == 0 then n else BandLength(n / 2, levels - 1)
  }

  lemma {:induction false} MultipleSplits(q: nat, levels: nat)
    requires q >= 4
    ensures Splits(q * Pow2(levels), levels)
    ensures BandLength(q * Pow2(levels), levels) == q <= q * Pow2(levels)
    decreases levels
  {
    if levels == 0 {
    } else {
      MultipleSplits(q, levels - 1);
      DoubleProduct(q, Pow2(levels - 1));
    }
  }

  lemma DoubleProduct(q: nat, p: nat)
    ensures q * (2 * p) == 2 * (q * p) == (2 * q) * p
  {
  }

  /** The validator's tests give a length that halves at every level. */
  lemma AcceptedSplits(count: nat, levels: nat, scratchCount: nat)
    requires TransformOk(count, levels, scratchCount)
    ensures count <= scratchCount && Splits(count, levels)
    ensures BandLength(count, levels) == count / Pow2(levels) >= 4
  {
    var q, p := count / Pow2(levels), Pow2(levels - 1);
    assert count == q * Pow2(levels);
    DoubleProduct(q, p);
    QuotientOfMultiple(2 * q, p);
    MultipleSplits(q, levels);
  }

  /** Undoing one halving: the bands of a length that splits double level by level. */
  lemma {:induction false} BandDoubles(n: nat, levels: nat, k: nat)
    requires Splits(n, levels) && k < levels
    ensures BandLength(n, k) == 2 * BandLength(n, k + 1) >= 8
    ensures Splits(BandLength(n, k), levels - k)
    ensures Splits(BandLength(n, k + 1), levels - k - 1)
    decreases levels
  {
    if k == 0 {
    } else {
      BandDoubles(n / 2, levels - 1, k - 1);
    }
  }

  lemma QuotientOfMultiple(a: nat, p: nat)
    requires p > 0
    ensures (a * p) / p == a
  {
    var q, r := (a * p) / p, (a * p) % p;
    assert (a - q) * p == r;
    if a - q >= 1 {
      ProductAtLeast(p, a - q);
    } else if a - q <= -1 {
      ProductAtLeast(p, q - a);
    }
  }

  // ----- one level -----

  /** An index at most one period too far, brought back. */
  function Wrap(a: nat, n: nat): (index: nat)
    requires a < 2 * n
    ensures index < n
  {
    if a < n then a else a - n
  }

  lemma RemainderWraps(a: nat, n: nat)
    requires a < 2 * n
    ensures a % n == Wrap(a, n)
  {
    if a < n {
      assert a / n == 0;
    } else {
      assert a == n * 1 + (a - n);
      RemainderOf(1, a - n, n);
    }
  }

  lemma RemainderOf(q: nat, r: nat, n: nat)
    requires r < n
    ensures (n * q + r) % n == r
  {
    var a := n * q + r;
    var q', r' := a / n, a % n;
    assert n * (q - q') == r' - r;
    if q - q' >= 1 {
      ProductAtLeast(n, q - q');
    } else if q - q' <= -1 {
      ProductAtLeast(n, q' - q);
    }
  }

  /** The first k terms of the filter f applied at output i, with periodic extension. */
  function Taps(f: Filter, x: seq<real>, i: nat, k: nat): real
    requires |x| >= 8 && 2 * i < |x| && k <= 8
    decreases k
  {
    if k == 0 then 0.0 else Taps(f, x, i, k - 1) + Times(f[k - 1], x[Wrap(2 * i + (k - 1), |x|)])
  }

  function Analyze(low: Filter, x: seq<real>): (y: seq<real>)
    requires |x| >= 8 && |x| % 2 == 0
    ensures |y| == |x|
  {
    seq(|x|, t requires 0 <= t < |x| =>
      if t < |x| / 2 then Taps(low, x, t, 8) else Taps(High(low), x, t - |x| / 2, 8))
  }

  /** What output i adds to the sample its k-th tap lands on. */
  function Spread(low: Filter, c: seq<real>, i: nat, k: nat): real
    requires k < 8 && |c| / 2 + i < |c|
  {
    Times(low[k], c[i]) + Times(High(low)[k], c[|c| / 2 + i])
  }

  /** The scratch buffer of the inverse after outputs below i and the first k taps of i. */
  function Scattered(low: Filter, c: seq<real>, i: nat, k: nat): (s: seq<real>)
    requires |c| >= 8 && |c| % 2 == 0 && k <= 8 && i <= |c| / 2 && (k > 0 ==> i < |c| / 2)
    ensures |s| == |c|
    decreases i, k
  {
    if k > 0 then
      var s := Scattered(low, c, i, k - 1);
      var index := Wrap(2 * i + (k - 1), |c|);
      s[index := s[index] + Spread(low, c, i, k - 1)]
    else if i > 0 then Scattered(low, c, i - 1, 8)
    else seq(|c|, _ => 0.0)
  }

  function Synthesize(low: Filter, c: seq<real>): (x: seq<real>)
    requires |c| >= 8 && |c| % 2 == 0
    ensures |x| == |c|
  {
    Scattered(low, c, |c| / 2, 0)
  }

  // ----- all levels -----

  function ForwardTransform(low: Filter, x: seq<real>, levels: nat): (y: seq<real>)
    requires Splits(|x|, levels)
    ensures |y| == |x|
    decreases levels
  {
    if levels == 0 then x
    else
      var y := Analyze(low, x);
      ForwardTransform(low, y[..|x| / 2], levels - 1) + y[|x| / 2..]
  }

  function InverseTransform(low: Filter, c: seq<real>, levels: nat): (x: seq<real>)
    requires Splits(|c|, levels)
    ensures |x| == |c|
    decreases levels
  {
    if levels == 0 then c
    else Synthesize(low, InverseTransform(low, c[..|c| / 2], levels - 1) + c[|c| / 2..])
  }

  lemma LevelStep(low: Filter, x: seq<real>, levels: nat)
    requires levels > 0 && Splits(|x|, levels)
    ensures |x| >= 8 && |x| % 2 == 0 && Splits(|x| / 2, levels - 1)
    ensures ForwardTransform(low, x, levels)
         == ForwardTransform(low, Analyze(low, x)[..|x| / 2], levels - 1) + Analyze(low, x)[|x| / 2..]
    ensures InverseTransform(low, x, levels)
         == Synthesize(low, InverseTransform(low, x[..|x| / 2], levels - 1) + x[|x| / 2..])
  {
  }

  lemma WholeBand(low: Filter, x: seq<real>)
    ensures Splits(|x|, 0) && BandLength(|x|, 0) == |x|
    ensures ForwardTransform(low, x, 0) == x == InverseTransform(low, x, 0)
  {
  }

  lemma SplitsUp(n: nat, levels: nat)
    requires n >= 4 && Splits(n, levels)
    ensures Splits(2 * n, levels + 1)
  {
  }

  // ----- the loops of the source -----

  /** Where tap k of output i reads or writes: the remainder of the source. */
  method TapIndex(i: nat, k: nat, n: nat) returns (index: nat)
    requires 2 * i + k < 2 * n
    ensures index == Wrap(2 * i + k, n)
  {
    index := (2 * i + k) % n;
    RemainderWraps(2 * i + k, n);
  }

  method FilterAt(values: array<real>, current: nat, i: nat, low: Filter, highPass: Filter)
    returns (lowSum: real, highSum: real)
    requires 8 <= current <= values.Length && 2 * i < current
    ensures lowSum == Taps(low, values[..current], i, 8)
    ensures highSum == Taps(highPass, values[..current], i, 8)
  {
    hide Wrap, Times;
    ghost var x := values[..current];
    lowSum, highSum := 0.0, 0.0;
    for k := 0 to 8
      invariant lowSum == Taps(low, x, i, k)
      invariant highSum == Taps(highPass, x, i, k)
    {
      var index := TapIndex(i, k, current);
      assert values[index] == x[index];
      lowSum := lowSum + Times(low[k], values[index]);
      highSum := highSum + Times(highPass[k], values[index]);
    }
  }

  method AnalyzeLevel(values: array<real>, current: nat, scratch: array<real>, low: Filter)
    requires values != scratch && 8 <= current <= values.Length && current <= scratch.Length
    requires current % 2 == 0
    modifies values, scratch
    ensures values[..current] == Analyze(low, old(values[..current]))
    ensures forall t :: current <= t < values.Length ==> values[t] == old(values[t])
  {
    hide Taps, High;
    ghost var x := values[..current];
    var half := current / 2;
    var highPass := High(low);
    for i := 0 to half
      invariant forall t :: 0 <= t < values.Length ==> values[t] == old(values[t])
      invariant forall t :: 0 <= t < i ==> scratch[t] == Analyze(low, x)[t]
      invariant forall t :: half <= t < half + i ==> scratch[t] == Analyze(low, x)[t]
    {
      assert values[..current] == x;
      var lowSum, highSum := FilterAt(values, current, i, low, highPass);
      scratch[i] := lowSum;
      scratch[half + i] := highSum;
    }
    forall t | 0 <= t < current { values[t] := scratch[t]; }
  }

  method SpreadAt(scratch: array<real>, values: array<real>, current: nat, i: nat, low: Filter,
                  ghost c: seq<real>)
    requires values != scratch && i < current && 4 <= current
    requires 2 * current <= values.Length && 2 * current <= scratch.Length
    requires c == values[..2 * current]
    requires scratch[..2 * current] == Scattered(low, c, i, 0)
    modifies scratch
    ensures scratch[..2 * current] == Scattered(low, c, i + 1, 0)
  {
    hide Wrap, Taps, Scattered, Times;
    var highPass := High(low);
    for k := 0 to 8
      invariant scratch[..2 * current] == Scattered(low, c, i, k)
    {
      var index := TapIndex(i, k, 2 * current);
      var added := Times(low[k], values[i]) + Times(highPass[k], values[current + i]);
      assert values[i] == c[i] && values[current + i] == c[current + i];
      AddAt(scratch, 2 * current, index, added, low, c, i, k);
    }
    ScatteredRow(low, c, i);
  }

  lemma ScatteredRow(low: Filter, c: seq<real>, i: nat)
    requires |c| >= 8 && |c| % 2 == 0 && i < |c| / 2
    ensures Scattered(low, c, i + 1, 0) == Scattered(low, c, i, 8)
  {
  }

  method AddAt(scratch: array<real>, length: nat, index: nat, added: real,
               ghost low: Filter, ghost c: seq<real>, ghost i: nat, ghost k: nat)
    requires length == |c| <= scratch.Length && |c| >= 8 && |c| % 2 == 0
    requires i < |c| / 2 && k < 8 && index == Wrap(2 * i + k, |c|)
    requires scratch[..length] == Scattered(low, c, i, k) && added == Spread(low, c, i, k)
    modifies scratch
    ensures scratch[..length] == Scattered(low, c, i, k + 1)
  {
    ghost var before := scratch[..length];
    scratch[index] := scratch[index] + added;
    assert scratch[..length] == before[index := before[index] + added];
  }

  method SynthesizeLevel(values: array<real>, current: nat, scratch: array<real>, low: Filter)
    requires values != scratch && current >= 4
    requires 2 * current <= values.Length && 2 * current <= scratch.Length
    modifies values, scratch
    ensures values[..2 * current] == Synthesize(low, old(values[..2 * current]))
    ensures forall t :: 2 * current <= t < values.Length ==> values[t] == old(values[t])
  {
    var reconstructed := 2 * current;
    ghost var c := values[..reconstructed];
    forall t | 0 <= t < reconstructed { scratch[t] := 0.0; }
    assert scratch[..reconstructed] == Scattered(low, c, 0, 0);
    for i := 0 to current
      invariant forall t :: 0 <= t < values.Length ==> values[t] == old(values[t])
      invariant scratch[..reconstructed] == Scattered(low, c, i, 0)
    {
      assert c == values[..reconstructed];
      SpreadAt(scratch, values, current, i, low, c);
    }
    forall t | 0 <= t < reconstructed { values[t] := scratch[t]; }
    assert values[..reconstructed] == scratch[..reconstructed];
  }

  /** One turn of the forward loop: the transform still owed moves to the lower half. */
  method ForwardLevel(values: array<real>, count: nat, current: nat, scratch: array<real>,
                      low: Filter, ghost owed: nat)
    requires values != scratch && current <= count <= values.Length && count <= scratch.Length
    requires owed > 0 && Splits(current, owed)
    modifies values, scratch
    ensures Splits(current / 2, owed - 1)
    ensures ForwardTransform(low, values[..current / 2], owed - 1) + values[current / 2..count]
         == ForwardTransform(low, old(values[..current]), owed) + old(values[current..count])
    ensures forall t :: count <= t < values.Length ==> values[t] == old(values[t])
  {
    hide Analyze, Splits, ForwardTransform;
    var half := current / 2;
    ghost var x, tail := values[..current], values[current..count];
    LevelStep(low, x, owed);
    AnalyzeLevel(values, current, scratch, low);
    ghost var y := Analyze(low, x);
    assert values[..half] == y[..half];
    assert values[half..count] == y[half..] + tail;
    ghost var deep := ForwardTransform(low, y[..half], owed - 1);
    assert (deep + y[half..]) + tail == deep + (y[half..] + tail);
  }

  method Db4Forward(values: array<real>, count: nat, levels: nat,
                    scratch: array<real>, scratchCount: nat, low: Filter) returns (r: Status)
    requires values != scratch && count <= values.Length && scratchCount <= scratch.Length
    modifies values, scratch
    ensures r == if TransformOk(count, levels, scratchCount) then Success else Failure(Range)
    ensures r.Failure? ==> values[..] == old(values[..])
    ensures r.Success? ==> Splits(count, levels)
    ensures r.Success? ==> values[..count] == ForwardTransform(low, old(values[..count]), levels)
    ensures forall t :: count <= t < values.Length ==> values[t] == old(values[t])
  {
    hide TransformOk, Splits, ForwardTransform;
    r := ValidateTransform(count, levels, scratchCount);
    if r.Failure? { return; }
    AcceptedSplits(count, levels, scratchCount);
    ghost var y := ForwardTransform(low, values[..count], levels);
    var current: nat := count;
    assert y + values[current..count] == y;
    for level := 0 to levels
      invariant current <= count && Splits(current, levels - level)
      invariant y == ForwardTransform(low, values[..current], levels - level) + values[current..count]
      invariant forall t :: count <= t < values.Length ==> values[t] == old(values[t])
    {
      ForwardLevel(values, count, current, scratch, low, levels - level);
      current := current / 2;
    }
    WholeBand(low, values[..current]);
    assert values[..count] == values[..current] + values[current..count];
  }

  /** One turn of the inverse loop: one more band joins the reconstructed prefix. */
  method InverseLevel(coefficients: array<real>, current: nat, scratch: array<real>,
                      low: Filter, ghost c: seq<real>, ghost done: nat)
    requires coefficients != scratch && current >= 4 && Splits(current, done)
    requires 2 * current <= |c| <= coefficients.Length && 2 * current <= scratch.Length
    requires coefficients[..current] == InverseTransform(low, c[..current], done)
    requires forall t :: current <= t < |c| ==> coefficients[t] == c[t]
    modifies coefficients, scratch
    ensures Splits(2 * current, done + 1)
    ensures coefficients[..2 * current] == InverseTransform(low, c[..2 * current], done + 1)
    ensures forall t :: 2 * current <= t < coefficients.Length ==> coefficients[t] == old(coefficients[t])
  {
    hide Synthesize, Splits, InverseTransform;
    SplitsUp(current, done);
    LevelStep(low, c[..2 * current], done + 1);
    assert c[..2 * current][..current] == c[..current];
    assert coefficients[..2 * current] == coefficients[..current] + c[..2 * current][current..];
    SynthesizeLevel(coefficients, current, scratch, low);
  }

  method Db4Inverse(coefficients: array<real>, count: nat, levels: nat,
                    scratch: array<real>, scratchCount: nat, low: Filter) returns (r: Status)
    requires coefficients != scratch && count <= coefficients.Length && scratchCount <= scratch.Length
    modifies coefficients, scratch
    ensures r == if TransformOk(count, levels, scratchCount) then Success else Failure(Range)
    ensures r.Failure? ==> coefficients[..] == old(coefficients[..])
    ensures r.Success? ==> Splits(count, levels)
    ensures r.Success? ==>
      coefficients[..count] == InverseTransform(low, old(coefficients[..count]), levels)
    ensures forall t :: count <= t < coefficients.Length ==> coefficients[t] == old(coefficients[t])
  {
    hide TransformOk, Pow2, Splits, BandLength, InverseTransform;
    r := ValidateTransform(count, levels, scratchCount);
    if r.Failure? { return; }
    AcceptedSplits(count, levels, scratchCount);
    ghost var c := coefficients[..count];
    var current: nat := count / Pow2(levels);
    WholeBand(low, c[..current]);
    for level := 0 to levels
      invariant current == BandLength(count, levels - level) && Splits(current, level)
      invariant coefficients[..current] == InverseTransform(low, c[..current], level)
      invariant forall t :: current <= t < coefficients.Length ==> coefficients[t] == old(coefficients[t])
    {
      BandDoubles(count, levels, levels - level - 1);
      InverseLevel(coefficients, current, scratch, low, c, level);
      current := current * 2;
    }
    WholeBand(low, c);
    assert c[..count] == c;
  }

  method SoftThreshold(coefficients: array<real>, firstDetail: nat, count: nat, threshold: real)
    requires count <= coefficients.Length
    modifies coefficients
    ensures coefficients[..count] == Shrunk(old(coefficients[..count]), firstDetail, threshold)
    ensures forall t :: count <= t < coefficients.Length ==> coefficients[t] == old(coefficients[t])
  {
    if firstDetail > count || threshold < 0.0 {
      assert forall t :: 0 <= t < count ==>
        coefficients[..count][t] == Shrunk(old(coefficients[..count]), firstDetail, threshold)[t];
      return;
    }
    for i := firstDetail to count
      invariant forall t :: 0 <= t < coefficients.Length && !(firstDetail <= t < i) ==>
        coefficients[t] == old(coefficients[t])
      invariant forall t :: firstDetail <= t < i ==>
        coefficients[t] == SoftValue(old(coefficients[t]), threshold)
    {
      var value := coefficients[i];
      var magnitude := Abs(value);
      if magnitude <= threshold {
        coefficients[i] := 0.0;
      } else {
        coefficients[i] := if value < 0.0 then -(magnitude - threshold) else magnitude - threshold;
      }
    }
  }

  function SoftValue(v: real, threshold: real): real {
    if Abs(v) <= threshold then 0.0
    else if v < 0.0 then -(Abs(v) - threshold) else Abs(v) - threshold
  }

  function Shrunk(c: seq<real>, firstDetail: nat, threshold: real): (s: seq<real>)
    ensures |s| == |c|
  {
    if firstDetail > |c| || threshold < 0.0 then c
    else seq(|c|, t requires 0 <= t < |c| => if t < firstDetail then c[t] else SoftValue(c[t], threshold))
  }

  /** Soft thresholding moves no detail coefficient by more than the threshold, never past
      zero and never away from it, and leaves the approximation band alone. */
  lemma ShrinkageBound(c: seq<real>, firstDetail: nat, threshold: real, t: nat)
    requires t < |c| && threshold >= 0.0
    ensures Abs(c[t] - Shrunk(c, firstDetail, threshold)[t]) <= threshold
    ensures Abs(Shrunk(c, firstDetail, threshold)[t]) <= Abs(c[t])
    ensures c[t] * Shrunk(c, firstDetail, threshold)[t] >= 0.0
    ensures t < firstDetail ==> Shrunk(c, firstDetail, threshold)[t] == c[t]
  {
    var s := Shrunk(c, firstDetail, threshold)[t];
    if c[t] >= 0.0 && s >= 0.0 {
      assert c[t] * s >= 0.0;
    } else {
      assert (-c[t]) * (-s) >= 0.0;
      assert (-c[t]) * (-s) == c[t] * s;
    }
  }

  /** Exactly what soft thresholding does to a detail coefficient: it vanishes if and only if it
      is within the threshold, and otherwise comes closer to zero by the threshold. */
  lemma ShrinkageIs(c: seq<real>, firstDetail: nat, threshold: real, t: nat)
    requires firstDetail <= t < |c| && threshold >= 0.0
    ensures var s := Shrunk(c, firstDetail, threshold)[t];
      (s == 0.0 <==> -threshold <= c[t] <= threshold)
      && (c[t] > threshold ==> s == c[t] - threshold > 0.0)
      && (c[t] < -threshold ==> s == c[t] + threshold < 0.0)
  {
  }
}
