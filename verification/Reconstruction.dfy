/** What one synthesis after one analysis does to a window, for every 8-tap filter, and
    from it the exact inversion of the multilevel transform for orthonormal filters. */
module Reconstruction {
  import opened Bits
  import opened Reals
  import opened Wavelet

  // ----- double-shift products of a filter -----

  function Energy(f: Filter): real {
    f[0]*f[0] + f[1]*f[1] + f[2]*f[2] + f[3]*f[3] + f[4]*f[4] + f[5]*f[5] + f[6]*f[6] + f[7]*f[7]
  }

  function Shift2(f: Filter): real {
    f[0]*f[2] + f[1]*f[3] + f[2]*f[4] + f[3]*f[5] + f[4]*f[6] + f[5]*f[7]
  }

  function Shift4(f: Filter): real {
    f[0]*f[4] + f[1]*f[5] + f[2]*f[6] + f[3]*f[7]
  }

  function Shift6(f: Filter): real {
    f[0]*f[6] + f[1]*f[7]
  }

  /** Double-shift orthonormality: the low-pass filter has unit energy and is orthogonal to
      its translates by two, four and six. */
  predicate Orthonormal(f: Filter) {
    Energy(f) == 1.0 && Shift2(f) == 0.0 && Shift4(f) == 0.0 && Shift6(f) == 0.0
  }

  /** The same within a tolerance of 1e-12. */
  predicate NearlyOrthonormal(f: Filter) {
    Abs(Energy(f) - 1.0) < 0.000000000001 && Abs(Shift2(f)) < 0.000000000001
    && Abs(Shift4(f)) < 0.000000000001 && Abs(Shift6(f)) < 0.000000000001
  }

  /** The published decimals miss these equations, but by less than 1e-12. */
  lemma DecimalsNearlyOrthonormal()
    ensures !Orthonormal(DB4_LOW) && NearlyOrthonormal(DB4_LOW)
  {
  }

  // ----- what the published decimals leave of smooth windows -----

  lemma EightTaps(f: Filter, x: seq<real>, i: nat)
    requires |x| >= 8 && 2 * i < |x|
    ensures Taps(f, x, i, 8)
         == Times(f[0], x[Wrap(2 * i + 0, |x|)]) + Times(f[1], x[Wrap(2 * i + 1, |x|)])
          + Times(f[2], x[Wrap(2 * i + 2, |x|)]) + Times(f[3], x[Wrap(2 * i + 3, |x|)])
          + Times(f[4], x[Wrap(2 * i + 4, |x|)]) + Times(f[5], x[Wrap(2 * i + 5, |x|)])
          + Times(f[6], x[Wrap(2 * i + 6, |x|)]) + Times(f[7], x[Wrap(2 * i + 7, |x|)])
  {
    hide Times, Wrap;
    assert Taps(f, x, i, 2) == Times(f[0], x[Wrap(2 * i + 0, |x|)]) + Times(f[1], x[Wrap(2 * i + 1, |x|)]);
    assert Taps(f, x, i, 4)
        == Taps(f, x, i, 2) + Times(f[2], x[Wrap(2 * i + 2, |x|)]) + Times(f[3], x[Wrap(2 * i + 3, |x|)]);
    assert Taps(f, x, i, 6)
        == Taps(f, x, i, 4) + Times(f[4], x[Wrap(2 * i + 4, |x|)]) + Times(f[5], x[Wrap(2 * i + 5, |x|)]);
  }

  /** Eight samples from the given one on, of a cubic in local coordinates. */
  predicate CubicAt(x: seq<real>, t: nat, a: real, b: real, c: real, d: real)
    requires t + 8 <= |x|
  {
    x[t] == a && x[t + 1] == a + b + c + d && x[t + 2] == a + 2.0 * b + 4.0 * c + 8.0 * d
    && x[t + 3] == a + 3.0 * b + 9.0 * c + 27.0 * d && x[t + 4] == a + 4.0 * b + 16.0 * c + 64.0 * d
    && x[t + 5] == a + 5.0 * b + 25.0 * c + 125.0 * d && x[t + 6] == a + 6.0 * b + 36.0 * c + 216.0 * d
    && x[t + 7] == a + 7.0 * b + 49.0 * c + 343.0 * d
  }

  /** Four vanishing moments: where a window is a cubic, its detail coefficient is zero but for
      4e-11 of the cubic's coefficients. */
  lemma CubicsLeaveNoDetail(low: Filter, x: seq<real>, i: nat, a: real, b: real, c: real, d: real)
    requires low == DB4_LOW && |x| >= 8 && |x| % 2 == 0 && 2 * i + 8 <= |x| && CubicAt(x, 2 * i, a, b, c, d)
    ensures Abs(Analyze(low, x)[|x| / 2 + i]) <= 0.00000000004 * (Abs(a) + Abs(b) + Abs(c) + Abs(d))
  {
    hide Times, High, Abs;
    EightTaps(High(low), x, i);
    var h := High(low);
    var y := Times(h[0], x[2 * i]) + Times(h[1], x[2 * i + 1]) + Times(h[2], x[2 * i + 2]) + Times(h[3], x[2 * i + 3])
           + Times(h[4], x[2 * i + 4]) + Times(h[5], x[2 * i + 5]) + Times(h[6], x[2 * i + 6])
           + Times(h[7], x[2 * i + 7]);
    assert Analyze(low, x)[|x| / 2 + i] == y;
    CubicSum(low, a, b, c, d);
  }

  lemma CubicSum(low: Filter, a: real, b: real, c: real, d: real)
    requires low == DB4_LOW
    ensures var h := High(low);
      Abs(Times(h[0], a) + Times(h[1], a + b + c + d) + Times(h[2], a + 2.0 * b + 4.0 * c + 8.0 * d)
          + Times(h[3], a + 3.0 * b + 9.0 * c + 27.0 * d) + Times(h[4], a + 4.0 * b + 16.0 * c + 64.0 * d)
          + Times(h[5], a + 5.0 * b + 25.0 * c + 125.0 * d) + Times(h[6], a + 6.0 * b + 36.0 * c + 216.0 * d)
          + Times(h[7], a + 7.0 * b + 49.0 * c + 343.0 * d))
      <= 0.00000000004 * (Abs(a) + Abs(b) + Abs(c) + Abs(d))
  {
    hide High, Times;
    CubicMoments(low, a, b, c, d);
    WithinAbs(0.000000000000064332, a);
    WithinAbs(0.000000000000827219, b);
    WithinAbs(0.000000000006145673, c);
    WithinAbs(0.000000000039862961, d);
  }

  /** The moments of the high-pass taps, exactly. */
  lemma CubicMoments(low: Filter, a: real, b: real, c: real, d: real)
    requires low == DB4_LOW
    ensures var h := High(low);
      Times(h[0], a) + Times(h[1], a + b + c + d) + Times(h[2], a + 2.0 * b + 4.0 * c + 8.0 * d)
      + Times(h[3], a + 3.0 * b + 9.0 * c + 27.0 * d) + Times(h[4], a + 4.0 * b + 16.0 * c + 64.0 * d)
      + Times(h[5], a + 5.0 * b + 25.0 * c + 125.0 * d) + Times(h[6], a + 6.0 * b + 36.0 * c + 216.0 * d)
      + Times(h[7], a + 7.0 * b + 49.0 * c + 343.0 * d)
      == Times(0.000000000000064332, a) + Times(0.000000000000827219, b) + Times(0.000000000006145673, c)
       + Times(0.000000000039862961, d)
  {
    var h := High(low);
    assert h == [-0.2303778133088964, 0.7148465705529154, -0.6308807679298587, -0.02798376941698385,
                 0.18703481171888114, 0.030841381835986965, -0.032883011666982945, -0.010597401784997278];
    hide High;
  }

  lemma WithinAbs(m: real, v: real)
    requires 0.0 <= m <= 0.00000000004
    ensures -(0.00000000004 * Abs(v)) <= Times(m, v) <= 0.00000000004 * Abs(v)
  {
    TimesOrdered(Abs(v), m, 0.00000000004);
    ProductSign(Abs(v), m);
  }

  /** The sum of the low-pass taps. */
  const GAIN: real := 1.414213562373778142

  /** The approximation of a constant window is the constant times the gain, which is the square
      root of two to within 1e-12. */
  lemma ConstantsAreScaled(low: Filter, x: seq<real>, i: nat, a: real)
    requires low == DB4_LOW && |x| >= 8 && |x| % 2 == 0 && 2 * i < |x|
    requires forall t :: 0 <= t < |x| ==> x[t] == a
    ensures Analyze(low, x)[i] == GAIN * a && 1.999999999998 <= GAIN * GAIN <= 2.000000000002
  {
    EightTaps(low, x, i);
    assert Analyze(low, x)[i] == (low[0] + low[1] + low[2] + low[3] + low[4] + low[5] + low[6] + low[7]) * a;
  }

  // ----- where a tap lands -----

  /** The output whose tap k lands on sample m. */
  function Source(m: nat, k: nat, n: nat): (i: nat)
    requires n >= 8 && n % 2 == 0 && m < n && k < 8 && k % 2 == m % 2
    ensures 2 * i < n
  {
    if m >= k then (m - k) / 2 else (m + n - k) / 2
  }

  lemma LandsAt(m: nat, k: nat, i: nat, n: nat)
    requires n >= 8 && n % 2 == 0 && m < n && k < 8 && 2 * i < n
    ensures Wrap(2 * i + k, n) == m <==> k % 2 == m % 2 && i == Source(m, k, n)
  {
  }

  /** What tap t (of the four whose parity is m's) has added to sample m so far. */
  function Landed(low: Filter, c: seq<real>, m: nat, t: nat, i: nat, k: nat): real
    requires |c| >= 8 && |c| % 2 == 0 && m < |c| && t < 4
  {
    var tap := m % 2 + 2 * t;
    var source := Source(m, tap, |c|);
    if source < i || (source == i && tap < k) then Spread(low, c, source, tap) else 0.0
  }

  /** Passing tap k of output i changes only the term of that tap, and only if it lands. */
  lemma LandedStep(low: Filter, c: seq<real>, m: nat, t: nat, i: nat, k: nat)
    requires |c| >= 8 && |c| % 2 == 0 && m < |c| && t < 4 && k < 8 && i < |c| / 2
    ensures Landed(low, c, m, t, i, k + 1) == Landed(low, c, m, t, i, k)
      + if k == m % 2 + 2 * t && Wrap(2 * i + k, |c|) == m then Spread(low, c, i, k) else 0.0
  {
    hide Spread;
    LandsAt(m, k, i, |c|);
  }

  /** The scatter loop, seen from one sample: a gather over four taps. */
  lemma {:induction false} ScatterIsGather(low: Filter, c: seq<real>, m: nat, i: nat, k: nat)
    requires |c| >= 8 && |c| % 2 == 0 && m < |c|
    requires k <= 8 && i <= |c| / 2 && (k > 0 ==> i < |c| / 2)
    ensures Scattered(low, c, i, k)[m] == Landed(low, c, m, 0, i, k) + Landed(low, c, m, 1, i, k)
                                        + Landed(low, c, m, 2, i, k) + Landed(low, c, m, 3, i, k)
    decreases i, k
  {
    hide Spread, Landed, Wrap, Scattered;
    ScatteredStep(low, c, m, i, k);
    if k > 0 {
      ScatterIsGather(low, c, m, i, k - 1);
      LandedFour(low, c, m, i, k - 1);
    } else {
      if i > 0 { ScatterIsGather(low, c, m, i - 1, 8); }
      LandedRow(low, c, m, 0, i);
      LandedRow(low, c, m, 1, i);
      LandedRow(low, c, m, 2, i);
      LandedRow(low, c, m, 3, i);
    }
  }

  /** One turn of the scatter loop, at sample m. */
  lemma ScatteredStep(low: Filter, c: seq<real>, m: nat, i: nat, k: nat)
    requires |c| >= 8 && |c| % 2 == 0 && m < |c|
    requires k <= 8 && i <= |c| / 2 && (k > 0 ==> i < |c| / 2)
    ensures Scattered(low, c, i, k)[m]
      == if k > 0 then
           Scattered(low, c, i, k - 1)[m] + if Wrap(2 * i + (k - 1), |c|) == m then Spread(low, c, i, k - 1) else 0.0
         else if i > 0 then Scattered(low, c, i - 1, 8)[m] else 0.0
  {
    hide Spread;
  }

  /** Of the four taps of m's parity at most one is tap k, and only it can land now. */
  lemma LandedFour(low: Filter, c: seq<real>, m: nat, i: nat, k: nat)
    requires |c| >= 8 && |c| % 2 == 0 && m < |c| && k < 8 && i < |c| / 2
    ensures Landed(low, c, m, 0, i, k + 1) + Landed(low, c, m, 1, i, k + 1)
          + Landed(low, c, m, 2, i, k + 1) + Landed(low, c, m, 3, i, k + 1)
         == Landed(low, c, m, 0, i, k) + Landed(low, c, m, 1, i, k) + Landed(low, c, m, 2, i, k)
          + Landed(low, c, m, 3, i, k) + if Wrap(2 * i + k, |c|) == m then Spread(low, c, i, k) else 0.0
  {
    hide Spread, Landed, Wrap;
    LandedStep(low, c, m, 0, i, k);
    LandedStep(low, c, m, 1, i, k);
    LandedStep(low, c, m, 2, i, k);
    LandedStep(low, c, m, 3, i, k);
    LandsAt(m, k, i, |c|);
  }

  lemma LandedRow(low: Filter, c: seq<real>, m: nat, t: nat, i: nat)
    requires |c| >= 8 && |c| % 2 == 0 && m < |c| && t < 4 && i <= |c| / 2
    ensures Landed(low, c, m, t, i, 0) == if i == 0 then 0.0 else Landed(low, c, m, t, i - 1, 8)
  {
    hide Spread;
  }

  // ----- the quadratic form behind one level -----

  function Pair(low: Filter, k: nat, j: nat): real
    requires k < 8 && j < 8
  {
    low[k] * low[j] + High(low)[k] * High(low)[j]
  }

  /** Sample a of the periodic extension of x. */
  function At(x: seq<real>, a: int): real
    requires -|x| <= a < 2 * |x|
  {
    if a < 0 then x[a + |x|] else if a < |x| then x[a] else x[a - |x|]
  }

  /** Contribution of tap k to sample m after analysis, over the first j analysis taps. */
  function Row(low: Filter, x: seq<real>, m: nat, k: nat, j: nat): real
    requires |x| >= 8 && m < |x| && k < 8 && j <= 8
  {
    if j == 0 then 0.0
    else Row(low, x, m, k, j - 1) + Times(Pair(low, k, j - 1), At(x, m + (j - 1) - k))
  }

  lemma Distribute(a: real, b: real, c: real, x: real)
    ensures Times(a, b + Times(c, x)) == Times(a, b) + Times(a * c, x)
  {
  }

  lemma TapSample(x: seq<real>, m: nat, k: nat, j: nat)
    requires |x| >= 8 && |x| % 2 == 0 && m < |x| && k < 8 && j < 8 && k % 2 == m % 2
    ensures x[Wrap(2 * Source(m, k, |x|) + j, |x|)] == At(x, m + j - k)
  {
  }

  lemma {:induction false} RowOfTaps(low: Filter, x: seq<real>, m: nat, k: nat, j: nat)
    requires |x| >= 8 && |x| % 2 == 0 && m < |x| && k < 8 && j <= 8 && k % 2 == m % 2
    ensures var i := Source(m, k, |x|);
      Times(low[k], Taps(low, x, i, j)) + Times(High(low)[k], Taps(High(low), x, i, j))
        == Row(low, x, m, k, j)
    decreases j
  {
    hide At, Source, Wrap, High, Times, Pair;
    var i, h := Source(m, k, |x|), High(low);
    if j == 0 {
      TimesOfZero(low[k]);
      TimesOfZero(h[k]);
    } else {
      RowOfTaps(low, x, m, k, j - 1);
      TapSample(x, m, k, j - 1);
      var v := At(x, m + (j - 1) - k);
      RowStep(low, k, j - 1, Taps(low, x, i, j - 1), Taps(h, x, i, j - 1), v);
      assert Taps(low, x, i, j) == Taps(low, x, i, j - 1) + Times(low[j - 1], v);
      assert Taps(h, x, i, j) == Taps(h, x, i, j - 1) + Times(h[j - 1], v);
      assert Row(low, x, m, k, j) == Row(low, x, m, k, j - 1) + Times(Pair(low, k, j - 1), v);
    }
  }

  lemma RowStep(low: Filter, k: nat, j: nat, lowSum: real, highSum: real, v: real)
    requires k < 8 && j < 8
    ensures Times(low[k], lowSum + Times(low[j], v)) + Times(High(low)[k], highSum + Times(High(low)[j], v))
         == Times(low[k], lowSum) + Times(High(low)[k], highSum) + Times(Pair(low, k, j), v)
  {
    var lk, lj, hk, hj := low[k], low[j], High(low)[k], High(low)[j];
    Distribute(lk, lowSum, lj, v);
    Distribute(hk, highSum, hj, v);
    assert (lk * lj + hk * hj) * v == (lk * lj) * v + (hk * hj) * v;
  }

  lemma Sum4(a: real, b: real, c: real, d: real, v: real)
    ensures Times(a, v) + Times(b, v) + Times(c, v) + Times(d, v) == Times(a + b + c + d, v)
    ensures Times(0.0, v) == 0.0
  {
  }

  lemma RowTerms(low: Filter, x: seq<real>, m: nat, k: nat)
    requires |x| >= 8 && m < |x| && k < 8
    ensures Row(low, x, m, k, 8)
         == Times(Pair(low, k, 0), At(x, m - k)) + Times(Pair(low, k, 1), At(x, m + 1 - k))
          + Times(Pair(low, k, 2), At(x, m + 2 - k)) + Times(Pair(low, k, 3), At(x, m + 3 - k))
          + Times(Pair(low, k, 4), At(x, m + 4 - k)) + Times(Pair(low, k, 5), At(x, m + 5 - k))
          + Times(Pair(low, k, 6), At(x, m + 6 - k)) + Times(Pair(low, k, 7), At(x, m + 7 - k))
  {
    hide Times, Pair, At;
    assert Row(low, x, m, k, 1) == Times(Pair(low, k, 0), At(x, m - k));
    assert Row(low, x, m, k, 2) == Row(low, x, m, k, 1) + Times(Pair(low, k, 1), At(x, m + 1 - k));
    assert Row(low, x, m, k, 3) == Row(low, x, m, k, 2) + Times(Pair(low, k, 2), At(x, m + 2 - k));
    assert Row(low, x, m, k, 4) == Row(low, x, m, k, 3) + Times(Pair(low, k, 3), At(x, m + 3 - k));
    assert Row(low, x, m, k, 5) == Row(low, x, m, k, 4) + Times(Pair(low, k, 4), At(x, m + 4 - k));
    assert Row(low, x, m, k, 6) == Row(low, x, m, k, 5) + Times(Pair(low, k, 5), At(x, m + 5 - k));
    assert Row(low, x, m, k, 7) == Row(low, x, m, k, 6) + Times(Pair(low, k, 6), At(x, m + 6 - k));
    assert Row(low, x, m, k, 8) == Row(low, x, m, k, 7) + Times(Pair(low, k, 7), At(x, m + 7 - k));
  }

  // ----- columns: the coefficient of each neighbour -----

  /** With k running over one parity, neighbours at an even distance meet a double-shift
      product of the filter, and neighbours at an odd distance cancel. */
  lemma EvenColumns(f: Filter)
    ensures Pair(f, 0, 0) + Pair(f, 2, 2) + Pair(f, 4, 4) + Pair(f, 6, 6) == Energy(f)
    ensures Pair(f, 0, 2) + Pair(f, 2, 4) + Pair(f, 4, 6) == Shift2(f)
    ensures Pair(f, 2, 0) + Pair(f, 4, 2) + Pair(f, 6, 4) == Shift2(f)
    ensures Pair(f, 0, 4) + Pair(f, 2, 6) == Shift4(f) == Pair(f, 4, 0) + Pair(f, 6, 2)
    ensures Pair(f, 0, 6) == Shift6(f) == Pair(f, 6, 0)
    ensures Pair(f, 0, 1) + Pair(f, 2, 3) + Pair(f, 4, 5) + Pair(f, 6, 7) == 0.0
    ensures Pair(f, 0, 3) + Pair(f, 2, 5) + Pair(f, 4, 7) == 0.0
    ensures Pair(f, 0, 5) + Pair(f, 2, 7) == 0.0 == Pair(f, 0, 7)
    ensures Pair(f, 2, 1) + Pair(f, 4, 3) + Pair(f, 6, 5) == 0.0
    ensures Pair(f, 4, 1) + Pair(f, 6, 3) == 0.0 == Pair(f, 6, 1)
  {
  }

  lemma OddColumns(f: Filter)
    ensures Pair(f, 1, 1) + Pair(f, 3, 3) + Pair(f, 5, 5) + Pair(f, 7, 7) == Energy(f)
    ensures Pair(f, 1, 3) + Pair(f, 3, 5) + Pair(f, 5, 7) == Shift2(f)
    ensures Pair(f, 3, 1) + Pair(f, 5, 3) + Pair(f, 7, 5) == Shift2(f)
    ensures Pair(f, 1, 5) + Pair(f, 3, 7) == Shift4(f) == Pair(f, 5, 1) + Pair(f, 7, 3)
    ensures Pair(f, 1, 7) == Shift6(f) == Pair(f, 7, 1)
    ensures Pair(f, 1, 2) + Pair(f, 3, 4) + Pair(f, 5, 6) == 0.0
    ensures Pair(f, 1, 4) + Pair(f, 3, 6) == 0.0 == Pair(f, 1, 6)
    ensures Pair(f, 1, 0) + Pair(f, 3, 2) + Pair(f, 5, 4) + Pair(f, 7, 6) == 0.0
    ensures Pair(f, 3, 0) + Pair(f, 5, 2) + Pair(f, 7, 4) == 0.0
    ensures Pair(f, 5, 0) + Pair(f, 7, 2) == 0.0 == Pair(f, 7, 0)
  {
  }

  /** Analysis followed by synthesis of sample m, in terms of the double-shift products. */
  function Blend(f: Filter, x: seq<real>, m: nat): real
    requires |x| >= 8 && m < |x|
  {
    Times(Energy(f), At(x, m))
    + Times(Shift2(f), At(x, m + 2)) + Times(Shift2(f), At(x, m - 2))
    + Times(Shift4(f), At(x, m + 4)) + Times(Shift4(f), At(x, m - 4))
    + Times(Shift6(f), At(x, m + 6)) + Times(Shift6(f), At(x, m - 6))
  }

  lemma EvenRows(f: Filter, x: seq<real>, m: nat)
    requires |x| >= 8 && m < |x|
    ensures Row(f, x, m, 0, 8) + Row(f, x, m, 2, 8) + Row(f, x, m, 4, 8) + Row(f, x, m, 6, 8)
         == Blend(f, x, m)
  {
    hide Times, Pair, At, Row, Energy, Shift2, Shift4, Shift6;
    RowTerms(f, x, m, 0);
    RowTerms(f, x, m, 2);
    RowTerms(f, x, m, 4);
    RowTerms(f, x, m, 6);
    EvenColumns(f);
    Sum4(Pair(f, 0, 0), Pair(f, 2, 2), Pair(f, 4, 4), Pair(f, 6, 6), At(x, m));
    Sum4(Pair(f, 0, 2), Pair(f, 2, 4), Pair(f, 4, 6), 0.0, At(x, m + 2));
    Sum4(Pair(f, 2, 0), Pair(f, 4, 2), Pair(f, 6, 4), 0.0, At(x, m - 2));
    Sum4(Pair(f, 0, 4), Pair(f, 2, 6), 0.0, 0.0, At(x, m + 4));
    Sum4(Pair(f, 4, 0), Pair(f, 6, 2), 0.0, 0.0, At(x, m - 4));
    Sum4(Pair(f, 0, 1), Pair(f, 2, 3), Pair(f, 4, 5), Pair(f, 6, 7), At(x, m + 1));
    Sum4(Pair(f, 0, 3), Pair(f, 2, 5), Pair(f, 4, 7), 0.0, At(x, m + 3));
    Sum4(Pair(f, 0, 5), Pair(f, 2, 7), 0.0, 0.0, At(x, m + 5));
    Sum4(Pair(f, 0, 7), 0.0, 0.0, 0.0, At(x, m + 7));
    Sum4(Pair(f, 2, 1), Pair(f, 4, 3), Pair(f, 6, 5), 0.0, At(x, m - 1));
    Sum4(Pair(f, 4, 1), Pair(f, 6, 3), 0.0, 0.0, At(x, m - 3));
    Sum4(Pair(f, 6, 1), 0.0, 0.0, 0.0, At(x, m - 5));
  }

  lemma OddRows(f: Filter, x: seq<real>, m: nat)
    requires |x| >= 8 && m < |x|
    ensures Row(f, x, m, 1, 8) + Row(f, x, m, 3, 8) + Row(f, x, m, 5, 8) + Row(f, x, m, 7, 8)
         == Blend(f, x, m)
  {
    hide Times, Pair, At, Row, Energy, Shift2, Shift4, Shift6;
    RowTerms(f, x, m, 1);
    RowTerms(f, x, m, 3);
    RowTerms(f, x, m, 5);
    RowTerms(f, x, m, 7);
    OddColumns(f);
    Sum4(Pair(f, 1, 1), Pair(f, 3, 3), Pair(f, 5, 5), Pair(f, 7, 7), At(x, m));
    Sum4(Pair(f, 1, 3), Pair(f, 3, 5), Pair(f, 5, 7), 0.0, At(x, m + 2));
    Sum4(Pair(f, 3, 1), Pair(f, 5, 3), Pair(f, 7, 5), 0.0, At(x, m - 2));
    Sum4(Pair(f, 1, 5), Pair(f, 3, 7), 0.0, 0.0, At(x, m + 4));
    Sum4(Pair(f, 5, 1), Pair(f, 7, 3), 0.0, 0.0, At(x, m - 4));
    Sum4(Pair(f, 1, 2), Pair(f, 3, 4), Pair(f, 5, 6), 0.0, At(x, m + 1));
    Sum4(Pair(f, 1, 4), Pair(f, 3, 6), 0.0, 0.0, At(x, m + 3));
    Sum4(Pair(f, 1, 6), 0.0, 0.0, 0.0, At(x, m + 5));
    Sum4(Pair(f, 1, 0), Pair(f, 3, 2), Pair(f, 5, 4), Pair(f, 7, 6), At(x, m - 1));
    Sum4(Pair(f, 3, 0), Pair(f, 5, 2), Pair(f, 7, 4), 0.0, At(x, m - 3));
    Sum4(Pair(f, 5, 0), Pair(f, 7, 2), 0.0, 0.0, At(x, m - 5));
    Sum4(Pair(f, 7, 0), 0.0, 0.0, 0.0, At(x, m - 7));
  }

  /** Tap k's share of sample m, once all outputs have been scattered, is its row. */
  lemma TapOfAnalysis(f: Filter, x: seq<real>, m: nat, t: nat)
    requires |x| >= 8 && |x| % 2 == 0 && m < |x| && t < 4
    ensures Landed(f, Analyze(f, x), m, t, |x| / 2, 0) == Row(f, x, m, m % 2 + 2 * t, 8)
  {
    hide Taps, Row, High, Times;
    var tap := m % 2 + 2 * t;
    var i := Source(m, tap, |x|);
    RowOfTaps(f, x, m, tap, 8);
    assert Analyze(f, x)[i] == Taps(f, x, i, 8);
    assert Analyze(f, x)[|x| / 2 + i] == Taps(High(f), x, i, 8);
  }

  /** Exactly, for every 8-tap filter, every even length from 8 up and every sample: what
      comes back is the sample weighted by the filter's energy plus its neighbours at
      distance two, four and six weighted by the double-shift products. */
  lemma LevelIdentity(f: Filter, x: seq<real>, m: nat)
    requires |x| >= 8 && |x| % 2 == 0 && m < |x|
    ensures Synthesize(f, Analyze(f, x))[m] == Blend(f, x, m)
  {
    hide Analyze, Landed, Row, Blend, Scattered;
    var c := Analyze(f, x);
    ScatterIsGather(f, c, m, |x| / 2, 0);
    TapOfAnalysis(f, x, m, 0);
    TapOfAnalysis(f, x, m, 1);
    TapOfAnalysis(f, x, m, 2);
    TapOfAnalysis(f, x, m, 3);
    if m % 2 == 0 { EvenRows(f, x, m); } else { OddRows(f, x, m); }
  }

  /** What inverts one level of windows of length n. At lengths 8 and 10 translates by
      different shifts meet, and only their sums have to vanish. */
  predicate InvertsLength(f: Filter, n: nat) {
    Energy(f) == 1.0 &&
    if n == 8 then Shift2(f) + Shift6(f) == 0.0 && Shift4(f) == 0.0
    else if n == 10 then Shift2(f) == 0.0 && Shift4(f) + Shift6(f) == 0.0
    else Shift2(f) == 0.0 && Shift4(f) == 0.0 && Shift6(f) == 0.0
  }

  /** The condition is exact, at every even length: one level inverts all windows of that
      length if and only if the filter meets it. From length 12 on that is orthonormality. */
  lemma LevelInvertsIff(f: Filter, n: nat)
    requires n >= 8 && n % 2 == 0
    ensures (forall x: seq<real> :: |x| == n ==> Synthesize(f, Analyze(f, x)) == x) <==> InvertsLength(f, n)
    ensures n >= 12 ==> (InvertsLength(f, n) <==> Orthonormal(f))
  {
    hide Analyze, Synthesize, InvertsLength;
    if InvertsLength(f, n) {
      forall x: seq<real> | |x| == n
        ensures Synthesize(f, Analyze(f, x)) == x
      {
        LengthInverts(f, x);
      }
    }
    if forall x: seq<real> :: |x| == n ==> Synthesize(f, Analyze(f, x)) == x {
      InversionForces(f, n);
    }
    LongLengths(f, n);
  }

  lemma LongLengths(f: Filter, n: nat)
    ensures n >= 12 ==> (InvertsLength(f, n) <==> Orthonormal(f))
  {
    hide Energy, Shift2, Shift4, Shift6;
  }

  lemma LengthInverts(f: Filter, x: seq<real>)
    requires |x| >= 8 && |x| % 2 == 0 && InvertsLength(f, |x|)
    ensures Synthesize(f, Analyze(f, x)) == x
  {
    hide Analyze, Synthesize, Energy, Shift2, Shift4, Shift6, Blend, InvertsLength;
    forall m | 0 <= m < |x|
      ensures Synthesize(f, Analyze(f, x))[m] == x[m]
    {
      LevelIdentity(f, x, m);
      BlendIsSample(f, x, m);
    }
  }

  lemma BlendIsSample(f: Filter, x: seq<real>, m: nat)
    requires |x| >= 8 && |x| % 2 == 0 && m < |x| && InvertsLength(f, |x|)
    ensures Blend(f, x, m) == x[m]
  {
    hide Energy, Shift2, Shift4, Shift6;
    if |x| == 8 {
      assert At(x, m + 6) == At(x, m - 2) && At(x, m - 6) == At(x, m + 2) && At(x, m + 4) == At(x, m - 4);
      TimesPlus(At(x, m + 2), Shift2(f), Shift6(f));
      TimesPlus(At(x, m - 2), Shift2(f), Shift6(f));
    } else if |x| == 10 {
      assert At(x, m + 6) == At(x, m - 4) && At(x, m - 6) == At(x, m + 4);
      TimesPlus(At(x, m + 4), Shift4(f), Shift6(f));
      TimesPlus(At(x, m - 4), Shift4(f), Shift6(f));
    }
  }

  lemma InversionForces(f: Filter, n: nat)
    requires n >= 8 && n % 2 == 0
    requires forall x: seq<real> :: |x| == n ==> Synthesize(f, Analyze(f, x)) == x
    ensures InvertsLength(f, n)
  {
    hide Analyze, Synthesize, Energy, Shift2, Shift4, Shift6, Blend, InvertsLength;
    var impulse := seq(n, t => if t == 6 then 1.0 else 0.0);
    assert Synthesize(f, Analyze(f, impulse)) == impulse;
    LevelIdentity(f, impulse, 6);
    LevelIdentity(f, impulse, 4);
    LevelIdentity(f, impulse, 2);
    LevelIdentity(f, impulse, 0);
    ImpulseBlends(f, impulse);
  }

  predicate Impulse(x: seq<real>) {
    |x| >= 8 && |x| % 2 == 0 && x[6] == 1.0 && forall t :: 0 <= t < |x| && t != 6 ==> x[t] == 0.0
  }

  /** The share of a coefficient at distance a of an impulse in a window of length n. */
  function Share(c: real, a: int, n: nat): real {
    if a == 6 || a == 6 - n || a == 6 + n then c else 0.0
  }

  lemma ImpulseTerm(c: real, x: seq<real>, a: int)
    requires Impulse(x) && -|x| <= a < 2 * |x|
    ensures Times(c, At(x, a)) == Share(c, a, |x|)
  {
  }

  lemma ImpulseBlend(f: Filter, x: seq<real>, m: nat)
    requires Impulse(x) && m < |x|
    ensures Blend(f, x, m)
         == Share(Energy(f), m, |x|) + Share(Shift2(f), m + 2, |x|) + Share(Shift2(f), m - 2, |x|)
          + Share(Shift4(f), m + 4, |x|) + Share(Shift4(f), m - 4, |x|)
          + Share(Shift6(f), m + 6, |x|) + Share(Shift6(f), m - 6, |x|)
  {
    hide Energy, Shift2, Shift4, Shift6, Times, At, Share;
    ImpulseTerm(Energy(f), x, m);
    ImpulseTerm(Shift2(f), x, m + 2);
    ImpulseTerm(Shift2(f), x, m - 2);
    ImpulseTerm(Shift4(f), x, m + 4);
    ImpulseTerm(Shift4(f), x, m - 4);
    ImpulseTerm(Shift6(f), x, m + 6);
    ImpulseTerm(Shift6(f), x, m - 6);
  }

  lemma ImpulseBlends(f: Filter, x: seq<real>)
    requires Impulse(x) && Blend(f, x, 6) == 1.0
    requires Blend(f, x, 4) == 0.0 && Blend(f, x, 2) == 0.0 && Blend(f, x, 0) == 0.0
    ensures InvertsLength(f, |x|)
  {
    hide Energy, Shift2, Shift4, Shift6, Blend;
    ImpulseBlend(f, x, 6);
    ImpulseBlend(f, x, 4);
    ImpulseBlend(f, x, 2);
    ImpulseBlend(f, x, 0);
  }

  /** A filter that is nearly orthonormal inverts one level to within 7e-12 of the largest
      sample. */
  lemma NearlyInverts(f: Filter, x: seq<real>, bound: real, m: nat)
    requires NearlyOrthonormal(f) && |x| >= 8 && |x| % 2 == 0 && m < |x|
    requires forall t :: 0 <= t < |x| ==> Abs(x[t]) <= bound
    ensures Abs(Synthesize(f, Analyze(f, x))[m] - x[m]) <= 0.000000000007 * bound
  {
    hide Analyze, Synthesize, Energy, Shift2, Shift4, Shift6, Times, At;
    LevelIdentity(f, x, m);
    SplitOne(Energy(f), At(x, m));
    SmallNeighbour(Energy(f) - 1.0, x, m, bound);
    SmallNeighbour(Shift2(f), x, m + 2, bound);
    SmallNeighbour(Shift2(f), x, m - 2, bound);
    SmallNeighbour(Shift4(f), x, m + 4, bound);
    SmallNeighbour(Shift4(f), x, m - 4, bound);
    SmallNeighbour(Shift6(f), x, m + 6, bound);
    SmallNeighbour(Shift6(f), x, m - 6, bound);
    AtInside(x, m);
  }

  lemma AtInside(x: seq<real>, m: nat)
    requires m < |x|
    ensures At(x, m) == x[m]
  {
  }

  lemma SplitOne(a: real, v: real)
    ensures Times(a, v) == v + Times(a - 1.0, v)
  {
  }

  lemma SmallNeighbour(a: real, x: seq<real>, d: int, bound: real)
    requires Abs(a) < 0.000000000001 && -|x| <= d < 2 * |x|
    requires forall t :: 0 <= t < |x| ==> Abs(x[t]) <= bound
    ensures -0.000000000001 * bound <= Times(a, At(x, d)) <= 0.000000000001 * bound
  {
    SmallProduct(a, At(x, d), 0.000000000001, bound);
  }

  lemma SmallProduct(a: real, v: real, small: real, bound: real)
    requires Abs(a) < small && Abs(v) <= bound
    ensures -(small * bound) <= Times(a, v) <= small * bound
  {
    var b, w := Abs(a), Abs(v);
    TimesOrdered(w, b, small);
    TimesOrdered(small, w, bound);
    TimesCommutes(w, b);
    TimesCommutes(w, small);
    TimesCommutes(small, bound);
    AbsTimes(a, v);
  }

  /** The filter inverts each length that so many levels pass through. */
  predicate InvertsDepths(f: Filter, n: nat, levels: nat) {
    levels == 0 || (InvertsLength(f, n) && InvertsDepths(f, n / 2, levels - 1))
  }

  lemma {:induction false} DepthsInvert(f: Filter, x: seq<real>, levels: nat)
    requires Splits(|x|, levels) && InvertsDepths(f, |x|, levels)
    ensures InverseTransform(f, ForwardTransform(f, x, levels), levels) == x
    decreases levels
  {
    hide Analyze, Synthesize, InvertsLength;
    if levels == 0 {
    } else {
      var y, half := Analyze(f, x), |x| / 2;
      DepthsInvert(f, y[..half], levels - 1);
      RebuiltLevel(f, x, levels);
      assert y[..half] + y[half..] == y;
      LengthInverts(f, x);
    }
  }

  lemma {:induction false} OrthonormalInvertsDepths(f: Filter, n: nat, levels: nat)
    requires Orthonormal(f)
    ensures InvertsDepths(f, n, levels)
    decreases levels
  {
    hide Energy, Shift2, Shift4, Shift6;
    if levels == 0 {
    } else {
      OrthonormalInvertsDepths(f, n / 2, levels - 1);
    }
  }

  /** The inverse transform undoes the forward one for every window length and number of
      levels that the validator accepts. */
  lemma PerfectReconstruction(f: Filter, x: seq<real>, levels: nat)
    requires Orthonormal(f) && Splits(|x|, levels)
    ensures InverseTransform(f, ForwardTransform(f, x, levels), levels) == x
  {
    hide Orthonormal, InvertsDepths, Splits, ForwardTransform, InverseTransform;
    OrthonormalInvertsDepths(f, |x|, levels);
    DepthsInvert(f, x, levels);
  }

  // ----- all levels with the published decimals -----

  function TapMass(f: Filter, k: nat): (s: real)
    requires k <= 8
    ensures s >= 0.0
  {
    if k == 0 then 0.0 else TapMass(f, k - 1) + Abs(f[k - 1])
  }

  /** What one sample can receive: the taps of its parity. */
  function ColumnMass(f: Filter, m: nat): real {
    Abs(f[m % 2]) + Abs(f[m % 2 + 2]) + Abs(f[m % 2 + 4]) + Abs(f[m % 2 + 6])
  }

  predicate Light(f: Filter) {
    TapMass(f, 8) <= 2.0 && ColumnMass(f, 0) <= 1.1 && ColumnMass(f, 1) <= 1.1
  }

  lemma DecimalsLight()
    ensures Light(DB4_LOW)
  {
    assert TapMass(DB4_LOW, 4) <= 0.2614;
    assert TapMass(DB4_LOW, 6) <= 0.9203;
  }

  lemma LightMass(f: Filter, m: nat)
    requires Light(f)
    ensures TapMass(f, 8) <= 2.0 && ColumnMass(f, m) <= 1.1
  {
    hide TapMass;
    assert m % 2 == 0 || m % 2 == 1;
  }

  lemma TapWithin(a: real, v: real, bound: real)
    requires Abs(v) <= bound
    ensures Abs(Times(a, v)) <= Times(Abs(a), bound)
  {
    TimesOrdered(Abs(a), Abs(v), bound);
  }

  lemma {:induction false} TapsWithin(f: Filter, x: seq<real>, bound: real, i: nat, k: nat)
    requires |x| >= 8 && 2 * i < |x| && k <= 8
    requires forall t :: 0 <= t < |x| ==> Abs(x[t]) <= bound
    ensures Abs(Taps(f, x, i, k)) <= Times(TapMass(f, k), bound)
    decreases k
  {
    if k == 0 {
    } else {
      TapsWithin(f, x, bound, i, k - 1);
      TapWithin(f[k - 1], x[Wrap(2 * i + (k - 1), |x|)], bound);
      TimesPlus(bound, TapMass(f, k - 1), Abs(f[k - 1]));
      hide Times, Wrap;
    }
  }

  /** The approximation of a window within bounds stays within twice the bounds. */
  lemma AnalysisGrows(f: Filter, x: seq<real>, bound: real, i: nat)
    requires |x| >= 8 && |x| % 2 == 0 && 2 * i < |x| && TapMass(f, 8) <= 2.0
    requires forall t :: 0 <= t < |x| ==> Abs(x[t]) <= bound
    ensures Abs(Analyze(f, x)[i]) <= 2.0 * bound
  {
    hide TapMass, Taps;
    TapsWithin(f, x, bound, i, 8);
    assert bound >= Abs(x[0]) >= 0.0;
    TimesOrdered(bound, TapMass(f, 8), 2.0);
  }

  /** Moving the approximation coefficients by at most d moves a sample by at most d times
      its column's taps. */
  lemma SynthesisMoves(f: Filter, c: seq<real>, c': seq<real>, d: real, m: nat)
    requires |c| == |c'| >= 8 && |c| % 2 == 0 && m < |c| && c[|c| / 2..] == c'[|c| / 2..]
    requires forall j :: 0 <= j < |c| / 2 ==> Abs(c[j] - c'[j]) <= d
    ensures Abs(Synthesize(f, c)[m] - Synthesize(f, c')[m]) <= Times(ColumnMass(f, m), d)
  {
    hide Landed, Scattered, Times;
    ScatterIsGather(f, c, m, |c| / 2, 0);
    ScatterIsGather(f, c', m, |c| / 2, 0);
    LandingMoves(f, c, c', d, m, 0);
    LandingMoves(f, c, c', d, m, 1);
    LandingMoves(f, c, c', d, m, 2);
    LandingMoves(f, c, c', d, m, 3);
    var p := m % 2;
    TimesPlus(d, Abs(f[p]), Abs(f[p + 2]));
    TimesPlus(d, Abs(f[p]) + Abs(f[p + 2]), Abs(f[p + 4]));
    TimesPlus(d, Abs(f[p]) + Abs(f[p + 2]) + Abs(f[p + 4]), Abs(f[p + 6]));
  }

  lemma LandingMoves(f: Filter, c: seq<real>, c': seq<real>, d: real, m: nat, t: nat)
    requires |c| == |c'| >= 8 && |c| % 2 == 0 && m < |c| && t < 4 && c[|c| / 2..] == c'[|c| / 2..]
    requires forall j :: 0 <= j < |c| / 2 ==> Abs(c[j] - c'[j]) <= d
    ensures Abs(Landed(f, c, m, t, |c| / 2, 0) - Landed(f, c', m, t, |c| / 2, 0)) <= Times(Abs(f[m % 2 + 2 * t]), d)
  {
    hide Times, Source;
    var tap := m % 2 + 2 * t;
    var i, half := Source(m, tap, |c|), |c| / 2;
    assert c[half + i] == c[half..][i] == c'[half..][i] == c'[half + i];
    TimesPlus(f[tap], c[i] - c'[i], c'[i]);
    assert c[i] - c'[i] + c'[i] == c[i];
    TapWithin(f[tap], c[i] - c'[i], d);
  }

  /** What a nearly orthonormal filter may lose over so many levels, per unit of the largest sample. */
  function Loss(levels: nat): (l: real)
    ensures l >= 0.0
  {
    if levels == 0 then 0.0 else 2.2 * Loss(levels - 1) + 0.000000000007
  }

  lemma {:induction false} NearlyReconstructs(f: Filter, x: seq<real>, levels: nat, bound: real, m: nat)
    requires NearlyOrthonormal(f) && Light(f) && Splits(|x|, levels) && m < |x|
    requires forall t :: 0 <= t < |x| ==> Abs(x[t]) <= bound
    ensures Abs(InverseTransform(f, ForwardTransform(f, x, levels), levels)[m] - x[m]) <= Times(Loss(levels), bound)
    decreases levels
  {
    hide Analyze, Synthesize, Loss, Times, TapMass, ColumnMass, NearlyOrthonormal, Light;
    LightMass(f, m);
    LossStep(levels);
    if levels == 0 {
      assert Times(Loss(0), bound) == 0.0 by { TimesOfZero(bound); }
    } else {
      var y, half := Analyze(f, x), |x| / 2;
      var a := InverseTransform(f, ForwardTransform(f, y[..half], levels - 1), levels - 1);
      forall j | 0 <= j < half
        ensures Abs(y[..half][j]) <= 2.0 * bound
      {
        AnalysisGrows(f, x, bound, j);
      }
      var d := Times(Loss(levels - 1), 2.0 * bound);
      forall j | 0 <= j < half
        ensures Abs((a + y[half..])[j] - y[j]) <= d
      {
        NearlyReconstructs(f, y[..half], levels - 1, 2.0 * bound, j);
      }
      RebuiltLevel(f, x, levels);
      SynthesisMoves(f, a + y[half..], y, d, m);
      NearlyInverts(f, x, bound, m);
      assert bound >= Abs(x[m]) >= 0.0;
      LossScaled(Loss(levels - 1), ColumnMass(f, m), bound);
    }
  }

  lemma RebuiltLevel(f: Filter, x: seq<real>, levels: nat)
    requires levels > 0 && Splits(|x|, levels)
    ensures var y, half := Analyze(f, x), |x| / 2;
      InverseTransform(f, ForwardTransform(f, x, levels), levels)
      == Synthesize(f, InverseTransform(f, ForwardTransform(f, y[..half], levels - 1), levels - 1) + y[half..])
  {
    hide Analyze, Synthesize;
    var y, half, z := Analyze(f, x), |x| / 2, ForwardTransform(f, x, levels);
    assert z[..half] == ForwardTransform(f, y[..half], levels - 1) && z[half..] == y[half..];
  }

  lemma LossStep(levels: nat)
    ensures Loss(0) == 0.0 && (levels > 0 ==> Loss(levels) == 2.2 * Loss(levels - 1) + 0.000000000007)
  {
  }

  lemma LossScaled(l: real, g: real, bound: real)
    requires l >= 0.0 && bound >= 0.0 && g <= 1.1
    ensures Times(g, Times(l, 2.0 * bound)) + 0.000000000007 * bound <= Times(2.2 * l + 0.000000000007, bound)
  {
    var d := l * (2.0 * bound);
    assert d >= 0.0;
    assert g * d <= 1.1 * d;
  }

  /** The transform as shipped: for every window length and number of levels the validator
      accepts, every sample comes back within 7e-10 of the largest. */
  lemma ShippedFilterReconstructs(f: Filter, x: seq<real>, levels: nat, bound: real, m: nat)
    requires f == DB4_LOW && TransformOk(|x|, levels, MAX_WINDOW) && m < |x|
    requires forall t :: 0 <= t < |x| ==> Abs(x[t]) <= bound
    ensures Splits(|x|, levels)
    ensures Abs(InverseTransform(f, ForwardTransform(f, x, levels), levels)[m] - x[m]) <= 0.0000000007 * bound
  {
    hide InverseTransform, ForwardTransform, Splits, Loss, TransformOk, Pow2, BandLength, NearlyOrthonormal, Light;
    DecimalsNearlyOrthonormal();
    DecimalsLight();
    AcceptedSplits(|x|, levels, MAX_WINDOW);
    AtMostSixLevels(|x|, levels);
    LossSmall(levels);
    LossWithin(f, x, levels, bound, m);
  }

  lemma LossWithin(f: Filter, x: seq<real>, levels: nat, bound: real, m: nat)
    requires NearlyOrthonormal(f) && Light(f) && Splits(|x|, levels) && m < |x| && Loss(levels) <= 0.0000000007
    requires forall t :: 0 <= t < |x| ==> Abs(x[t]) <= bound
    ensures Abs(InverseTransform(f, ForwardTransform(f, x, levels), levels)[m] - x[m]) <= 0.0000000007 * bound
  {
    hide InverseTransform, ForwardTransform, Splits, Loss, Times, NearlyOrthonormal, Light;
    NearlyReconstructs(f, x, levels, bound, m);
    assert bound >= Abs(x[m]) >= 0.0;
    TimesOrdered(bound, Loss(levels), 0.0000000007);
    TimesCommutes(bound, Loss(levels));
    TimesCommutes(bound, 0.0000000007);
  }

  lemma AtMostSixLevels(count: nat, levels: nat)
    requires TransformOk(count, levels, MAX_WINDOW)
    ensures levels <= 6
  {
    if levels > 6 { SevenLevels(levels); }
  }

  lemma SevenLevels(levels: nat)
    requires levels > 6
    ensures Pow2(levels - 1) >= 64
  {
    Pow2Add(6, levels - 7);
    assert Pow2(6) == 64;
    ProductAtLeast(64, Pow2(levels - 7));
  }

  lemma LossSmall(levels: nat)
    requires levels <= 6
    ensures Loss(levels) <= 0.0000000007
  {
    assert Loss(1) == 0.000000000007;
    assert Loss(2) == 0.0000000000224;
    assert Loss(3) == 0.00000000005628;
    assert Loss(4) == 0.000000000130816;
    assert Loss(5) == 0.0000000002947952;
    assert Loss(6) == 0.00000000065554944;
  }
}
