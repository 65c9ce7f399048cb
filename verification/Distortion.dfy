/** Inner products of windows, and the inverse transform as the adjoint of the forward one. */
module Distortion {
  import opened Reals
  import opened Wavelet

  function DotTo(a: seq<real>, b: seq<real>, n: nat): real
    requires n <= |a| && n <= |b|
  {
    if n == 0 then 0.0 else DotTo(a, b, n - 1) + Times(a[n - 1], b[n - 1])
  }

  function Dot(a: seq<real>, b: seq<real>): real
    requires |a| == |b|
  {
    DotTo(a, b, |a|)
  }

  function Minus(a: seq<real>, b: seq<real>): (d: seq<real>)
    requires |a| == |b|
    ensures |d| == |a|
  {
    seq(|a|, t requires 0 <= t < |a| => a[t] - b[t])
  }

  lemma {:induction false} DotMinus(a: seq<real>, b: seq<real>, c: seq<real>, n: nat)
    requires |b| == |c| && n <= |a| && n <= |b|
    ensures DotTo(a, Minus(b, c), n) == DotTo(a, b, n) - DotTo(a, c, n)
  {
    if n == 0 {
    } else {
      DotMinus(a, b, c, n - 1);
      assert Times(a[n - 1], b[n - 1] - c[n - 1]) == Times(a[n - 1], b[n - 1]) - Times(a[n - 1], c[n - 1]);
    }
  }

  lemma {:induction false} DotPrefix(a: seq<real>, b: seq<real>, a': seq<real>, b': seq<real>, n: nat)
    requires n <= |a| && n <= |b| && n <= |a'| && n <= |b'|
    requires a[..n] == a'[..n] && b[..n] == b'[..n]
    ensures DotTo(a, b, n) == DotTo(a', b', n)
  {
    hide Times;
    if n == 0 {
    } else {
      assert a[..n - 1] == a[..n][..n - 1] == a'[..n - 1];
      assert b[..n - 1] == b[..n][..n - 1] == b'[..n - 1];
      DotPrefix(a, b, a', b', n - 1);
      assert a[n - 1] == a[..n][n - 1] && b[n - 1] == b[..n][n - 1];
    }
  }

  lemma {:induction false} DotConcat(a: seq<real>, b: seq<real>, c: seq<real>, d: seq<real>, n: nat)
    requires |a| == |b| && |c| == |d| && n <= |c|
    ensures DotTo(a + c, b + d, |a| + n) == Dot(a, b) + DotTo(c, d, n)
  {
    hide Times;
    if n == 0 {
      DotPrefix(a + c, b + d, a, b, |a|);
    } else {
      DotConcat(a, b, c, d, n - 1);
    }
  }

  lemma {:induction false} DotUpdate(x: seq<real>, s: seq<real>, j: nat, v: real, n: nat)
    requires |x| == |s| && j < |s| && n <= |s|
    ensures DotTo(x, s[j := s[j] + v], n) == DotTo(x, s, n) + if j < n then Times(x[j], v) else 0.0
  {
    if n == 0 {
    } else {
      DotUpdate(x, s, j, v, n - 1);
      assert Times(x[j], s[j] + v) == Times(x[j], s[j]) + Times(x[j], v);
    }
  }

  lemma {:induction false} DotZero(x: seq<real>, z: seq<real>, n: nat)
    requires n <= |x| && n <= |z| && forall t :: 0 <= t < |z| ==> z[t] == 0.0
    ensures DotTo(x, z, n) == 0.0
  {
    if n == 0 {
    } else {
      DotZero(x, z, n - 1);
    }
  }

  lemma {:induction false} SquaresDominated(e: seq<real>, b: seq<real>, n: nat)
    requires n <= |e| && n <= |b|
    requires forall t :: 0 <= t < n ==> Abs(e[t]) <= b[t]
    ensures 0.0 <= DotTo(e, e, n) <= DotTo(b, b, n)
  {
    if n == 0 {
    } else {
      SquaresDominated(e, b, n - 1);
      SquareDominated(e[n - 1], b[n - 1]);
    }
  }

  lemma SquareDominated(e: real, b: real)
    requires Abs(e) <= b
    ensures 0.0 <= Times(e, e) <= Times(b, b)
  {
    var a := Abs(e);
    assert Times(e, e) == a * a;
    assert a * a <= a * b <= b * b;
  }

  // ----- adjointness -----

  /** The partial inner product of the analysis of x with c, over the first i outputs. */
  function Outputs(f: Filter, x: seq<real>, c: seq<real>, i: nat): real
    requires |x| == |c| >= 8 && |c| % 2 == 0 && i <= |c| / 2
  {
    if i == 0 then 0.0
    else Outputs(f, x, c, i - 1) + Partial(f, x, c, i - 1, 8)
  }

  function Partial(f: Filter, x: seq<real>, c: seq<real>, i: nat, k: nat): real
    requires |x| == |c| >= 8 && |c| % 2 == 0 && i < |c| / 2 && k <= 8
  {
    Times(Taps(f, x, i, k), c[i]) + Times(Taps(High(f), x, i, k), c[|c| / 2 + i])
  }

  lemma PartialStep(f: Filter, x: seq<real>, c: seq<real>, i: nat, k: nat)
    requires |x| == |c| >= 8 && |c| % 2 == 0 && i < |c| / 2 && k < 8
    ensures Partial(f, x, c, i, 0) == 0.0
    ensures Partial(f, x, c, i, k + 1)
         == Partial(f, x, c, i, k) + Times(x[Wrap(2 * i + k, |x|)], Spread(f, c, i, k))
  {
    hide High;
    var h := High(f);
    TapAlgebra(Taps(f, x, i, k), f[k], c[i], Taps(h, x, i, k), h[k], c[|c| / 2 + i],
               x[Wrap(2 * i + k, |x|)]);
  }

  lemma TapAlgebra(s: real, a: real, c: real, t: real, b: real, d: real, v: real)
    ensures Times(s + Times(a, v), c) + Times(t + Times(b, v), d)
         == Times(s, c) + Times(t, d) + Times(v, Times(a, c) + Times(b, d))
  {
    assert (s + a * v) * c == s * c + (a * c) * v;
    assert (t + b * v) * d == t * d + (b * d) * v;
    assert v * (a * c + b * d) == (a * c) * v + (b * d) * v;
  }

  lemma {:induction false} ScatterAgainst(f: Filter, x: seq<real>, c: seq<real>, i: nat, k: nat)
    requires |x| == |c| >= 8 && |c| % 2 == 0
    requires k <= 8 && i <= |c| / 2 && (k > 0 ==> i < |c| / 2)
    ensures Dot(x, Scattered(f, c, i, k))
         == Outputs(f, x, c, i) + if k > 0 then Partial(f, x, c, i, k) else 0.0
    decreases i, k
  {
    hide Times, Spread, Partial, Taps;
    if k > 0 {
      ScatterAgainst(f, x, c, i, k - 1);
      PartialStep(f, x, c, i, k - 1);
      var s := Scattered(f, c, i, k - 1);
      DotUpdate(x, s, Wrap(2 * i + (k - 1), |c|), Spread(f, c, i, k - 1), |s|);
    } else if i > 0 {
      ScatterAgainst(f, x, c, i - 1, 8);
    } else {
      DotZero(x, Scattered(f, c, 0, 0), |x|);
    }
  }

  lemma {:induction false} OutputsAreDot(f: Filter, x: seq<real>, c: seq<real>, i: nat)
    requires |x| == |c| >= 8 && |c| % 2 == 0 && i <= |c| / 2
    ensures var y, h := Analyze(f, x), |c| / 2;
      Outputs(f, x, c, i) == DotTo(y, c, i) + DotTo(y, c, h + i) - DotTo(y, c, h)
  {
    hide Times, Taps, High;
    if i == 0 {
    } else {
      OutputsAreDot(f, x, c, i - 1);
    }
  }

  lemma LevelAdjoint(f: Filter, x: seq<real>, c: seq<real>)
    requires |x| == |c| >= 8 && |c| % 2 == 0
    ensures Dot(Analyze(f, x), c) == Dot(x, Synthesize(f, c))
  {
    hide Analyze, Scattered, Outputs;
    OutputsAreDot(f, x, c, |c| / 2);
    ScatterAgainst(f, x, c, |c| / 2, 0);
  }

  /** For every filter, the inverse transform is the adjoint of the forward transform. */
  lemma {:induction false} Adjoint(f: Filter, x: seq<real>, c: seq<real>, levels: nat)
    requires |x| == |c| && Splits(|x|, levels)
    ensures Dot(ForwardTransform(f, x, levels), c) == Dot(x, InverseTransform(f, c, levels))
    decreases levels
  {
    hide Analyze, Synthesize, DotTo;
    if levels == 0 {
    } else {
      var y, half := Analyze(f, x), |x| / 2;
      var deep := ForwardTransform(f, y[..half], levels - 1);
      var band := InverseTransform(f, c[..half], levels - 1);
      Adjoint(f, y[..half], c[..half], levels - 1);
      assert c == c[..half] + c[half..] && y == y[..half] + y[half..];
      DotConcat(deep, c[..half], y[half..], c[half..], |c| - half);
      DotConcat(y[..half], band, y[half..], c[half..], |c| - half);
      LevelAdjoint(f, x, band + c[half..]);
    }
  }

  lemma SelfDotNonNegative(d: seq<real>)
    ensures Dot(d, d) >= 0.0
  {
    SquaresDominated(d, seq(|d|, t requires 0 <= t < |d| => Abs(d[t])), |d|);
  }
}
