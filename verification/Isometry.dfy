/** How far the transform of any 8-tap filter is from preserving inner products, and what that
    leaves of a coefficient error in the window. Nothing is lost by an orthonormal filter;
    what the published decimals lose is bounded in numbers. */
module Isometry {
  import opened Bits
  import opened Reals
  import opened Wavelet
  import opened Reconstruction
  import opened Distortion

  // ----- the defect of a filter -----

  /** By how much a filter misses double-shift orthonormality. */
  function Defect(f: Filter): (d: real)
    ensures d >= 0.0
  {
    Abs(Energy(f) - 1.0) + 2.0 * Abs(Shift2(f)) + 2.0 * Abs(Shift4(f)) + 2.0 * Abs(Shift6(f))
  }

  /** What the defect of one level becomes over several. */
  function Drift(d: real, levels: nat): (e: real)
    requires d >= 0.0
    ensures e >= 0.0
  {
    if levels == 0 then 0.0
    else
      ProductSign(1.0 + d, Drift(d, levels - 1));
      d + Times(1.0 + d, Drift(d, levels - 1))
  }

  /** Exactly the orthonormal filters have no defect, at any depth. */
  lemma NoDefect(f: Filter)
    ensures Defect(f) == 0.0 <==> Orthonormal(f)
    ensures forall levels: nat :: Defect(f) == 0.0 ==> Drift(Defect(f), levels) == 0.0
  {
    hide Energy, Shift2, Shift4, Shift6;
    if Defect(f) == 0.0 {
      forall levels: nat
        ensures Drift(0.0, levels) == 0.0
      {
        NoDrift(levels);
      }
    }
  }

  lemma {:induction false} NoDrift(levels: nat)
    ensures Drift(0.0, levels) == 0.0
  {
    if levels == 0 {
    } else {
      NoDrift(levels - 1);
    }
  }

  // ----- Young's inequality -----

  /** The weights of Young's inequality. */
  predicate Reciprocal(s: real, t: real) {
    s > 0.0 && t > 0.0 && Times(s, t) == 1.0
  }

  lemma Young(a: real, b: real, s: real, t: real)
    requires Reciprocal(s, t)
    ensures 2.0 * Abs(Times(a, b)) <= Times(s, Times(a, a)) + Times(t, Times(b, b))
  {
    var r := Times(s, a);
    assert Times(t, r) == a by {
      TimesAssociates(t, s, a);
      assert Times(t, s) == Times(s, t);
      assert Times(1.0, a) == a;
    }
    assert Times(t, Times(r, r)) == Times(s, Times(a, a)) by {
      TimesAssociates(t, r, r);
      TimesAssociates(a, s, a);
    }
    assert Times(t, Times(r, b)) == Times(a, b) by { TimesAssociates(t, r, b); }
    SquareOfSum(r, b, t);
  }

  lemma SquareOfSum(r: real, b: real, t: real)
    requires t > 0.0
    ensures 2.0 * Abs(Times(t, Times(r, b))) <= Times(t, Times(r, r)) + Times(t, Times(b, b))
  {
    BinomialSign(r, b);
    TimesOrdered(t, 2.0 * Times(r, b), Times(r, r) + Times(b, b));
    TimesOrdered(t, -(Times(r, r) + Times(b, b)), 2.0 * Times(r, b));
    TimesPlus(t, Times(r, r), Times(b, b));
    TimesPlus(t, Times(r, b), Times(r, b));
    TimesNegative(t, Times(r, r) + Times(b, b));
  }

  lemma BinomialSign(r: real, b: real)
    ensures -(Times(r, r) + Times(b, b)) <= 2.0 * Times(r, b) <= Times(r, r) + Times(b, b)
  {
    SquareSign(r - b);
    SquareSign(r + b);
    assert Times(r - b, r - b) == Times(r, r) - 2.0 * Times(r, b) + Times(b, b);
    assert Times(r + b, r + b) == Times(r, r) + 2.0 * Times(r, b) + Times(b, b);
  }

  lemma TimesNegative(a: real, b: real)
    ensures Times(a, -b) == -Times(a, b)
  {
  }

  lemma {:induction false} DotYoung(a: seq<real>, b: seq<real>, n: nat, s: real, t: real)
    requires n <= |a| && n <= |b| && Reciprocal(s, t)
    ensures 2.0 * Abs(DotTo(a, b, n)) <= Times(s, DotTo(a, a, n)) + Times(t, DotTo(b, b, n))
  {
    if n == 0 {
      assert Times(s, 0.0) == 0.0 == Times(t, 0.0);
    } else {
      DotYoung(a, b, n - 1, s, t);
      Young(a[n - 1], b[n - 1], s, t);
      TimesPlus(s, DotTo(a, a, n - 1), Times(a[n - 1], a[n - 1]));
      TimesPlus(t, DotTo(b, b, n - 1), Times(b[n - 1], b[n - 1]));
      hide Times;
    }
  }

  // ----- one level -----

  /** The window turned by d samples. */
  function Turned(x: seq<real>, d: nat): (y: seq<real>)
    requires d <= |x|
    ensures |y| == |x|
  {
    x[d..] + x[..d]
  }

  lemma TurnedEnergy(x: seq<real>, d: nat)
    requires d <= |x|
    ensures Dot(Turned(x, d), Turned(x, d)) == Dot(x, x)
  {
    hide DotTo;
    var a, b := x[..d], x[d..];
    DotConcat(b, b, a, a, |a|);
    DotConcat(a, a, b, b, |b|);
    assert x == a + b;
  }

  function Blended(f: Filter, x: seq<real>): (y: seq<real>)
    requires |x| >= 8
    ensures |y| == |x|
  {
    seq(|x|, m requires 0 <= m < |x| => Blend(f, x, m))
  }

  /** The inner product with a blended window, up to n, in terms of the turned windows. */
  function BlendedDot(f: Filter, z: seq<real>, x: seq<real>, n: nat): real
    requires |z| == |x| >= 8 && n <= |x|
  {
    var w := |x|;
    Times(Energy(f), DotTo(z, x, n))
    + Times(Shift2(f), DotTo(z, Turned(x, 2), n)) + Times(Shift2(f), DotTo(z, Turned(x, w - 2), n))
    + Times(Shift4(f), DotTo(z, Turned(x, 4), n)) + Times(Shift4(f), DotTo(z, Turned(x, w - 4), n))
    + Times(Shift6(f), DotTo(z, Turned(x, 6), n)) + Times(Shift6(f), DotTo(z, Turned(x, w - 6), n))
  }

  lemma {:induction false} DotBlended(f: Filter, z: seq<real>, x: seq<real>, n: nat)
    requires |z| == |x| >= 8 && n <= |x|
    ensures DotTo(z, Blended(f, x), n) == BlendedDot(f, z, x, n)
  {
    hide Times, Energy, Shift2, Shift4, Shift6, Turned, At, Blend;
    if n == 0 {
      TimesOfZero(Energy(f));
      TimesOfZero(Shift2(f));
      TimesOfZero(Shift4(f));
      TimesOfZero(Shift6(f));
    } else {
      DotBlended(f, z, x, n - 1);
      BlendedDotStep(f, z, x, n - 1);
    }
  }

  lemma BlendedDotStep(f: Filter, z: seq<real>, x: seq<real>, m: nat)
    requires |z| == |x| >= 8 && m < |x|
    ensures BlendedDot(f, z, x, m + 1) == BlendedDot(f, z, x, m) + Times(z[m], Blend(f, x, m))
  {
    hide Times, Energy, Shift2, Shift4, Shift6, Turned, At, Blend;
    var w := |x|;
    TurnedAt(x, m, 2);
    TurnedAt(x, m, 4);
    TurnedAt(x, m, 6);
    AtInside(x, m);
    TermStep(Energy(f), DotTo(z, x, m), z[m], At(x, m));
    TermStep(Shift2(f), DotTo(z, Turned(x, 2), m), z[m], At(x, m + 2));
    TermStep(Shift2(f), DotTo(z, Turned(x, w - 2), m), z[m], At(x, m - 2));
    TermStep(Shift4(f), DotTo(z, Turned(x, 4), m), z[m], At(x, m + 4));
    TermStep(Shift4(f), DotTo(z, Turned(x, w - 4), m), z[m], At(x, m - 4));
    TermStep(Shift6(f), DotTo(z, Turned(x, 6), m), z[m], At(x, m + 6));
    TermStep(Shift6(f), DotTo(z, Turned(x, w - 6), m), z[m], At(x, m - 6));
    BlendTimes(f, x, m, z[m]);
  }

  lemma TurnedAt(x: seq<real>, m: nat, d: nat)
    requires m < |x| && d <= |x|
    ensures Turned(x, d)[m] == At(x, m + d) && Turned(x, |x| - d)[m] == At(x, m - d)
  {
  }

  lemma TermStep(c: real, sum: real, z: real, v: real)
    ensures Times(c, sum + Times(z, v)) == Times(c, sum) + Times(z, Times(c, v))
  {
    TimesPlus(c, sum, Times(z, v));
    TimesAssociates(c, z, v);
  }

  lemma BlendTimes(f: Filter, x: seq<real>, m: nat, z: real)
    requires |x| >= 8 && m < |x|
    ensures Times(z, Blend(f, x, m))
         == Times(z, Times(Energy(f), At(x, m)))
          + Times(z, Times(Shift2(f), At(x, m + 2))) + Times(z, Times(Shift2(f), At(x, m - 2)))
          + Times(z, Times(Shift4(f), At(x, m + 4))) + Times(z, Times(Shift4(f), At(x, m - 4)))
          + Times(z, Times(Shift6(f), At(x, m + 6))) + Times(z, Times(Shift6(f), At(x, m - 6)))
  {
    hide Times, Energy, Shift2, Shift4, Shift6, At;
    var a, b, c := Times(Energy(f), At(x, m)), Times(Shift2(f), At(x, m + 2)), Times(Shift2(f), At(x, m - 2));
    var d, e := Times(Shift4(f), At(x, m + 4)), Times(Shift4(f), At(x, m - 4));
    var g, h := Times(Shift6(f), At(x, m + 6)), Times(Shift6(f), At(x, m - 6));
    TimesPlus(z, a, b);
    TimesPlus(z, a + b, c);
    TimesPlus(z, a + b + c, d);
    TimesPlus(z, a + b + c + d, e);
    TimesPlus(z, a + b + c + d + e, g);
    TimesPlus(z, a + b + c + d + e + g, h);
  }

  /** The weighted energies that all estimates are in terms of. */
  function Mixed(z: seq<real>, x: seq<real>, s: real, t: real): real {
    Times(s, Dot(z, z)) + Times(t, Dot(x, x))
  }

  lemma TurnedWithin(z: seq<real>, x: seq<real>, d: nat, c: real, s: real, t: real)
    requires |z| == |x| && d <= |x| && Reciprocal(s, t)
    ensures 2.0 * Abs(Times(c, Dot(z, Turned(x, d)))) <= Times(Abs(c), Mixed(z, x, s, t))
  {
    hide DotTo, Turned;
    DotYoung(z, Turned(x, d), |x|, s, t);
    TurnedEnergy(x, d);
    ScaledWithin(c, Dot(z, Turned(x, d)), Mixed(z, x, s, t));
  }

  lemma ScaledWithin(c: real, v: real, bound: real)
    requires 2.0 * Abs(v) <= bound
    ensures 2.0 * Abs(Times(c, v)) <= Times(Abs(c), bound)
  {
    var a := Abs(c);
    assert Abs(Times(c, v)) == Times(a, Abs(v));
    TimesOrdered(a, 2.0 * Abs(v), bound);
  }

  /** One level preserves inner products up to the filter's defect. */
  lemma LevelDefect(f: Filter, z: seq<real>, x: seq<real>, s: real, t: real)
    requires |z| == |x| >= 8 && |x| % 2 == 0 && Reciprocal(s, t)
    ensures 2.0 * Abs(Dot(z, x) - Dot(Analyze(f, z), Analyze(f, x))) <= Times(Defect(f), Mixed(z, x, s, t))
  {
    hide Times, Energy, Shift2, Shift4, Shift6, Dot, Analyze, Synthesize, Defect, Mixed, Reciprocal;
    LevelAdjoint(f, z, Analyze(f, x));
    SynthesisIsBlended(f, x);
    BlendedNearly(f, z, x, s, t);
  }

  lemma BlendedNearly(f: Filter, z: seq<real>, x: seq<real>, s: real, t: real)
    requires |z| == |x| >= 8 && Reciprocal(s, t)
    ensures 2.0 * Abs(Dot(z, x) - Dot(z, Blended(f, x))) <= Times(Defect(f), Mixed(z, x, s, t))
  {
    hide Times, Energy, Shift2, Shift4, Shift6, DotTo, Turned, Blended, Defect, Mixed, Reciprocal;
    var w, q := |x|, Mixed(z, x, s, t);
    DotBlended(f, z, x, w);
    WholeTurn(x);
    TurnedWithin(z, x, 0, Energy(f) - 1.0, s, t);
    TurnedWithin(z, x, 2, Shift2(f), s, t);
    TurnedWithin(z, x, w - 2, Shift2(f), s, t);
    TurnedWithin(z, x, 4, Shift4(f), s, t);
    TurnedWithin(z, x, w - 4, Shift4(f), s, t);
    TurnedWithin(z, x, 6, Shift6(f), s, t);
    TurnedWithin(z, x, w - 6, Shift6(f), s, t);
    SplitOne(Energy(f), Dot(z, x));
    DefectTimes(f, q);
    var a, b, c := Times(Shift2(f), Dot(z, Turned(x, 2))), Times(Shift4(f), Dot(z, Turned(x, 4))),
      Times(Shift6(f), Dot(z, Turned(x, 6)));
    var d, e, g := Times(Shift2(f), Dot(z, Turned(x, w - 2))), Times(Shift4(f), Dot(z, Turned(x, w - 4))),
      Times(Shift6(f), Dot(z, Turned(x, w - 6)));
    hide *;
    Triangle(Times(Energy(f) - 1.0, Dot(z, x)), a, b, c, d, e, g);
  }

  lemma Triangle(o: real, a: real, b: real, c: real, d: real, e: real, g: real)
    ensures Abs(o + a + b + c + d + e + g) <= Abs(o) + Abs(a) + Abs(b) + Abs(c) + Abs(d) + Abs(e) + Abs(g)
  {
  }

  lemma SynthesisIsBlended(f: Filter, x: seq<real>)
    requires |x| >= 8 && |x| % 2 == 0
    ensures Synthesize(f, Analyze(f, x)) == Blended(f, x)
  {
    hide Synthesize, Analyze, Blend;
    forall m | 0 <= m < |x|
      ensures Synthesize(f, Analyze(f, x))[m] == Blended(f, x)[m]
    {
      LevelIdentity(f, x, m);
    }
  }

  lemma WholeTurn(x: seq<real>)
    ensures Turned(x, 0) == x
  {
  }

  lemma DefectTimes(f: Filter, q: real)
    ensures Times(Defect(f), q) == Times(Abs(Energy(f) - 1.0), q) + 2.0 * Times(Abs(Shift2(f)), q)
                                 + 2.0 * Times(Abs(Shift4(f)), q) + 2.0 * Times(Abs(Shift6(f)), q)
  {
    hide Energy, Shift2, Shift4, Shift6;
    FourTimes(Abs(Energy(f) - 1.0), Abs(Shift2(f)), Abs(Shift4(f)), Abs(Shift6(f)), q);
  }

  lemma FourTimes(a: real, b: real, c: real, d: real, q: real)
    ensures Times(a + 2.0 * b + 2.0 * c + 2.0 * d, q)
         == Times(a, q) + 2.0 * Times(b, q) + 2.0 * Times(c, q) + 2.0 * Times(d, q)
  {
  }

  // ----- all levels -----

  /** For every filter: the multilevel transform preserves inner products up to the drift. */
  lemma {:induction false} NearIsometry(f: Filter, z: seq<real>, x: seq<real>, levels: nat, s: real, t: real)
    requires |z| == |x| && Splits(|x|, levels) && Reciprocal(s, t)
    ensures 2.0 * Abs(Dot(z, x) - Dot(ForwardTransform(f, z, levels), ForwardTransform(f, x, levels)))
         <= Times(Drift(Defect(f), levels), Mixed(z, x, s, t))
    decreases levels
  {
    hide Times, Analyze, DotTo, Defect, Mixed, Reciprocal;
    if levels == 0 {
      TimesOfZero(Mixed(z, x, s, t));
    } else {
      var y, v, half := Analyze(f, z), Analyze(f, x), |x| / 2;
      var d, q := Defect(f), Mixed(z, x, s, t);
      NearIsometry(f, y[..half], v[..half], levels - 1, s, t);
      LevelDefect(f, z, x, s, t);
      SplitDots(ForwardTransform(f, y[..half], levels - 1), ForwardTransform(f, v[..half], levels - 1), y, v, half);
      BandMixed(f, z, x, s, t);
      TimesOrdered(Drift(d, levels - 1), Mixed(y[..half], v[..half], s, t), Times(1.0 + d, q));
      TimesAssociates(Drift(d, levels - 1), 1.0 + d, q);
      TimesCommutes(Drift(d, levels - 1), 1.0 + d);
      TimesPlus(q, d, Times(1.0 + d, Drift(d, levels - 1)));
    }
  }

  /** The detail halves contribute the same before and after the deeper levels. */
  lemma SplitDots(a: seq<real>, b: seq<real>, y: seq<real>, v: seq<real>, half: nat)
    requires |a| == |b| == half && |y| == |v| == 2 * half
    ensures Dot(y, v) - Dot(a + y[half..], b + v[half..]) == Dot(y[..half], v[..half]) - Dot(a, b)
  {
    hide DotTo;
    var y', v' := y[half..], v[half..];
    DotConcat(a, b, y', v', half);
    DotConcat(y[..half], v[..half], y', v', half);
    assert y == y[..half] + y' && v == v[..half] + v';
  }

  /** The approximation half holds at most the energy of the level, one plus the defect. */
  lemma BandEnergy(f: Filter, z: seq<real>)
    requires |z| >= 8 && |z| % 2 == 0
    ensures var a := Analyze(f, z)[..|z| / 2];
      Dot(a, a) <= Times(1.0 + Defect(f), Dot(z, z))
  {
    hide Analyze, DotTo, Defect, Times;
    var y, half := Analyze(f, z), |z| / 2;
    UnitReciprocal();
    LevelDefect(f, z, z, 1.0, 1.0);
    UnitMixed(z, Defect(f));
    DotConcat(y[..half], y[..half], y[half..], y[half..], half);
    assert y == y[..half] + y[half..];
    SelfDotNonNegative(y[half..]);
  }

  lemma UnitReciprocal()
    ensures Reciprocal(1.0, 1.0)
  {
  }

  lemma UnitMixed(z: seq<real>, d: real)
    ensures Times(d, Mixed(z, z, 1.0, 1.0)) == 2.0 * Times(d, Dot(z, z))
    ensures Times(1.0 + d, Dot(z, z)) == Dot(z, z) + Times(d, Dot(z, z))
  {
    hide DotTo;
  }

  lemma BandMixed(f: Filter, z: seq<real>, x: seq<real>, s: real, t: real)
    requires |z| == |x| >= 8 && |x| % 2 == 0 && Reciprocal(s, t)
    ensures Mixed(Analyze(f, z)[..|z| / 2], Analyze(f, x)[..|x| / 2], s, t)
         <= Times(1.0 + Defect(f), Mixed(z, x, s, t))
  {
    hide Analyze, DotTo, Defect;
    var a, b, g := Analyze(f, z)[..|z| / 2], Analyze(f, x)[..|x| / 2], 1.0 + Defect(f);
    BandEnergy(f, z);
    BandEnergy(f, x);
    WeighTwo(Dot(a, a), Dot(z, z), Dot(b, b), Dot(x, x), g, s, t);
  }

  lemma WeighTwo(a: real, z: real, b: real, x: real, g: real, s: real, t: real)
    requires s > 0.0 && t > 0.0 && a <= Times(g, z) && b <= Times(g, x)
    ensures Times(s, a) + Times(t, b) <= Times(g, Times(s, z) + Times(t, x))
  {
    TimesOrdered(s, a, Times(g, z));
    TimesOrdered(t, b, Times(g, x));
    TimesAssociates(s, g, z);
    TimesAssociates(t, g, x);
    TimesPlus(g, Times(s, z), Times(t, x));
  }

  /** Energy after any number of levels, for every filter. */
  lemma EnergyNearlyPreserved(f: Filter, x: seq<real>, levels: nat)
    requires Splits(|x|, levels)
    ensures var y := ForwardTransform(f, x, levels);
      Abs(Dot(x, x) - Dot(y, y)) <= Times(Drift(Defect(f), levels), Dot(x, x))
  {
    hide ForwardTransform, DotTo, Defect, Drift;
    UnitReciprocal();
    NearIsometry(f, x, x, levels, 1.0, 1.0);
    UnitMixed(x, Drift(Defect(f), levels));
  }

  /** An orthonormal filter preserves energy exactly. */
  lemma EnergyPreserved(f: Filter, x: seq<real>, levels: nat)
    requires Orthonormal(f) && Splits(|x|, levels)
    ensures Dot(ForwardTransform(f, x, levels), ForwardTransform(f, x, levels)) == Dot(x, x)
  {
    hide ForwardTransform, DotTo, Orthonormal, Defect, Drift;
    EnergyNearlyPreserved(f, x, levels);
    NoDefect(f);
    TimesOfZero(Dot(x, x));
  }

  // ----- coefficient error and window error -----

  /** An error within its budget, up to what a drift adds: for all weights, the drift times the
      weighted error and energy. With no drift the error is within the budget itself. */
  ghost predicate WithinDrift(error: real, budget: real, energy: real, drift: real) {
    forall s, t :: Reciprocal(s, t) ==>
      error <= budget + Times(drift, Times(1.0 + s, error) + Times(t, energy))
  }

  /** For every filter: replacing the coefficients of x by any others moves the window by no
      more energy than it moves the coefficients, up to the drift. */
  lemma CoefficientErrorBoundsWindowError(f: Filter, x: seq<real>, c: seq<real>, levels: nat)
    requires |x| == |c| && Splits(|x|, levels)
    ensures var y, e := Minus(x, InverseTransform(f, c, levels)), Minus(ForwardTransform(f, x, levels), c);
      WithinDrift(Dot(y, y), Dot(e, e), Dot(x, x), Drift(Defect(f), levels))
  {
    hide ForwardTransform, InverseTransform, DotTo, Minus, Reciprocal, Drift, Defect, Times;
    var z, w := ForwardTransform(f, x, levels), InverseTransform(f, c, levels);
    var y, e := Minus(x, w), Minus(z, c);
    var g := ForwardTransform(f, y, levels);
    var error, budget, energy, drift := Dot(y, y), Dot(e, e), Dot(x, x), Drift(Defect(f), levels);
    ErrorParts(f, x, c, levels);
    HalfYoung(g, e);
    EnergyNearlyPreserved(f, y, levels);
    forall s, t | Reciprocal(s, t)
      ensures error <= budget + Times(drift, Times(1.0 + s, error) + Times(t, energy))
    {
      NearIsometry(f, y, x, levels, s, t);
      MixedIs(y, x, s, t);
      ErrorSum(error, Dot(y, x), Dot(y, w), Dot(g, z), Dot(g, e), Dot(g, g), budget, energy, Mixed(y, x, s, t),
               drift, s, t);
    }
  }

  lemma MixedIs(z: seq<real>, x: seq<real>, s: real, t: real)
    ensures Mixed(z, x, s, t) == Times(s, Dot(z, z)) + Times(t, Dot(x, x))
  {
  }

  /** The error y against itself: against the window, less against what was decoded, which is
      the transform of y against the coefficients. */
  lemma ErrorParts(f: Filter, x: seq<real>, c: seq<real>, levels: nat)
    requires |x| == |c| && Splits(|x|, levels)
    ensures var z, w := ForwardTransform(f, x, levels), InverseTransform(f, c, levels);
      var y, e := Minus(x, w), Minus(z, c);
      var g := ForwardTransform(f, y, levels);
      Dot(y, y) == Dot(y, x) - Dot(y, w) && Dot(g, e) == Dot(g, z) - Dot(y, w)
  {
    hide ForwardTransform, InverseTransform, DotTo, Minus, Splits;
    var z, w, n := ForwardTransform(f, x, levels), InverseTransform(f, c, levels), |x|;
    var y := Minus(x, w);
    DotMinus(y, x, w, n);
    Adjoint(f, y, c, levels);
    DotMinus(ForwardTransform(f, y, levels), z, c, n);
  }

  lemma HalfYoung(g: seq<real>, e: seq<real>)
    requires |g| == |e|
    ensures 2.0 * Abs(Dot(g, e)) <= Dot(g, g) + Dot(e, e)
  {
    hide DotTo, Times;
    UnitReciprocal();
    DotYoung(g, e, |g|, 1.0, 1.0);
    TimesOfOne(Dot(g, g));
    TimesOfOne(Dot(e, e));
  }

  lemma ErrorSum(yy: real, yx: real, yw: real, gz: real, ge: real, gg: real, ee: real, xx: real,
                 mixed: real, d: real, s: real, t: real)
    requires yy == yx - yw && ge == gz - yw && mixed == Times(s, yy) + Times(t, xx)
    requires 2.0 * Abs(yx - gz) <= Times(d, mixed)
    requires 2.0 * Abs(ge) <= gg + ee && Abs(yy - gg) <= Times(d, yy)
    ensures yy <= ee + Times(d, Times(1.0 + s, yy) + Times(t, xx))
  {
    DriftSum(d, yy, xx, s, t);
    hide Times;
  }

  lemma DriftSum(d: real, y: real, x: real, s: real, t: real)
    ensures Times(d, Times(s, y) + Times(t, x)) + Times(d, y) == Times(d, Times(1.0 + s, y) + Times(t, x))
  {
    TimesPlus(d, Times(s, y) + Times(t, x), y);
    TimesPlus(y, 1.0, s);
    TimesOfOne(y);
  }

  /** A larger drift allows no less. */
  lemma MoreDrift(error: real, budget: real, energy: real, drift: real, more: real)
    requires error >= 0.0 && energy >= 0.0 && drift <= more && WithinDrift(error, budget, energy, drift)
    ensures WithinDrift(error, budget, energy, more)
  {
    forall s, t | Reciprocal(s, t)
      ensures error <= budget + Times(more, Times(1.0 + s, error) + Times(t, energy))
    {
      ProductSign(1.0 + s, error);
      ProductSign(t, energy);
      var q := Times(1.0 + s, error) + Times(t, energy);
      TimesOrdered(q, drift, more);
      TimesCommutes(q, drift);
      TimesCommutes(q, more);
    }
  }

  lemma MoreBudget(error: real, budget: real, more: real, energy: real, drift: real)
    requires budget <= more && WithinDrift(error, budget, energy, drift)
    ensures WithinDrift(error, more, energy, drift)
  {
    hide Times;
  }

  /** With an orthonormal filter the error is within the budget. */
  lemma ExactWithin(f: Filter, error: real, budget: real, energy: real, levels: nat)
    requires Orthonormal(f) && WithinDrift(error, budget, energy, Drift(Defect(f), levels))
    ensures error <= budget
  {
    hide Orthonormal, Defect, Drift, Times;
    NoDefect(f);
    UnitReciprocal();
    TimesOfZero(Times(1.0 + 1.0, error) + Times(1.0, energy));
  }

  // ----- the published decimals -----

  lemma DecimalsDefect()
    ensures Defect(DB4_LOW) <= 0.000000000007
  {
    DecimalsNearlyOrthonormal();
  }

  lemma {:induction false} DriftGrows(d: real, more: real, levels: nat)
    requires 0.0 <= d <= more
    ensures Drift(d, levels) <= Drift(more, levels)
  {
    if levels == 0 {
    } else {
      DriftGrows(d, more, levels - 1);
      TimesOrdered(1.0 + d, Drift(d, levels - 1), Drift(more, levels - 1));
      TimesOrdered(Drift(more, levels - 1), 1.0 + d, 1.0 + more);
      TimesCommutes(1.0 + d, Drift(more, levels - 1));
      TimesCommutes(1.0 + more, Drift(more, levels - 1));
      hide Times;
    }
  }

  lemma {:induction false} DriftDeepens(d: real, levels: nat, deeper: nat)
    requires d >= 0.0 && levels <= deeper
    ensures Drift(d, levels) <= Drift(d, deeper)
    decreases deeper
  {
    if levels == deeper {
    } else {
      DriftDeepens(d, levels, deeper - 1);
      ProductSign(d, Drift(d, deeper - 1));
      TimesPlus(Drift(d, deeper - 1), 1.0, d);
      TimesOfOne(Drift(d, deeper - 1));
    }
  }

  /** Over the at most six levels of an accepted window, the decimals drift by 4.3e-11. */
  lemma DecimalsDrift(f: Filter, count: nat, levels: nat)
    requires f == DB4_LOW && TransformOk(count, levels, MAX_WINDOW)
    ensures Drift(Defect(f), levels) <= 0.000000000043
  {
    hide Defect, TransformOk, Drift, Pow2;
    DecimalsDefect();
    AtMostSixLevels(count, levels);
    DriftGrows(Defect(f), 0.000000000007, levels);
    DriftDeepens(0.000000000007, levels, 6);
    SixLevels();
  }

  lemma SixLevels()
    ensures Drift(0.000000000007, 6) <= 0.000000000043
  {
    var d := 0.000000000007;
    DriftStep(d, 1, 0.000000000007);
    DriftStep(d, 2, 0.0000000000141);
    DriftStep(d, 3, 0.0000000000212);
    DriftStep(d, 4, 0.0000000000283);
    DriftStep(d, 5, 0.0000000000354);
    DriftStep(d, 6, 0.000000000043);
  }

  lemma DriftStep(d: real, levels: nat, bound: real)
    requires d == 0.000000000007 && levels > 0 && Drift(d, levels - 1) < 0.0000000001
    requires Drift(d, levels - 1) <= bound - 0.00000000000709 || (levels == 1 && bound == d)
    ensures Drift(d, levels) <= bound
  {
    if levels > 1 {
      assert Times(1.0 + d, Drift(d, levels - 1)) == Drift(d, levels - 1) + d * Drift(d, levels - 1);
    }
  }

  /** In numbers: one part in a million of the budget, and 5e-15 of the window's energy. */
  lemma ShippedWithin(f: Filter, error: real, budget: real, energy: real, count: nat, levels: nat)
    requires f == DB4_LOW && TransformOk(count, levels, MAX_WINDOW)
    requires error >= 0.0 && budget >= 0.0 && energy >= 0.0
    requires WithinDrift(error, budget, energy, Drift(Defect(f), levels))
    ensures error <= 1.000001 * budget + 0.000000000000005 * energy
  {
    hide Defect, TransformOk, Drift;
    DecimalsDrift(f, count, levels);
    MoreDrift(error, budget, energy, Drift(Defect(f), levels), 0.000000000043);
    assert Reciprocal(10000.0, 0.0001);
    assert error <= budget + Times(0.000000000043, Times(1.0 + 10000.0, error) + Times(0.0001, energy));
  }
}
