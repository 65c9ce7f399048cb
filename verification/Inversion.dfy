/** What several levels of the transform need of the filter to invert all windows: exactly that
    each of their lengths meets its condition. Sufficiency is in module Reconstruction; here is
    the converse, on the even and odd samples of a window as two periodic sequences. */
module Inversion {
  import opened Bits
  import opened Reals
  import opened Wavelet
  import opened Reconstruction
  import opened Distortion
  import opened Isometry

  // ----- periodic sequences -----

  /** Entry a of the periodic extension of u, however far away. */
  function Per(u: seq<real>, a: int): real
    requires u != []
  {
    u[a % |u|]
  }

  lemma PerShift(u: seq<real>, a: int, b: int)
    requires u != []
    ensures Per(u, a % |u| + b) == Per(u, a + b)
  {
    var n := |u|;
    assert a == n * (a / n) + a % n;
    SameRemainder(a % n + b, a + b, n, a / n);
  }

  lemma PerInside(u: seq<real>, j: nat)
    requires j < |u|
    ensures Per(u, j) == u[j]
  {
    UniqueRemainder(j, |u|, 0, j);
  }

  /** The even (p is 0) or odd taps of f against u, ending at j. */
  function Conv(f: Filter, p: nat, u: seq<real>, j: int): real
    requires p < 2 && u != []
  {
    Times(f[p], Per(u, j)) + Times(f[p + 2], Per(u, j - 1)) + Times(f[p + 4], Per(u, j - 2))
    + Times(f[p + 6], Per(u, j - 3))
  }

  /** The same taps against u, starting at j. */
  function ConvBack(f: Filter, p: nat, u: seq<real>, j: int): real
    requires p < 2 && u != []
  {
    Times(f[p], Per(u, j)) + Times(f[p + 2], Per(u, j + 1)) + Times(f[p + 4], Per(u, j + 2))
    + Times(f[p + 6], Per(u, j + 3))
  }

  /** What one level and its inverse change in the even samples, or the odd ones. */
  function Ker(f: Filter, u: seq<real>, j: int): real
    requires u != []
  {
    Times(Energy(f) - 1.0, Per(u, j))
    + Times(Shift2(f), Per(u, j + 1)) + Times(Shift2(f), Per(u, j - 1))
    + Times(Shift4(f), Per(u, j + 2)) + Times(Shift4(f), Per(u, j - 2))
    + Times(Shift6(f), Per(u, j + 3)) + Times(Shift6(f), Per(u, j - 3))
  }

  function ConvSeq(f: Filter, p: nat, u: seq<real>): (v: seq<real>)
    requires p < 2 && u != []
    ensures |v| == |u|
  {
    seq(|u|, j requires 0 <= j < |u| => Conv(f, p, u, j))
  }

  function KerSeq(f: Filter, u: seq<real>): (v: seq<real>)
    requires u != []
    ensures |v| == |u|
  {
    seq(|u|, j requires 0 <= j < |u| => Ker(f, u, j))
  }

  function Nil(n: nat): (z: seq<real>)
    ensures |z| == n
  {
    seq(n, _ => 0.0)
  }

  lemma ConvPeriod(f: Filter, p: nat, u: seq<real>, a: int)
    requires p < 2 && u != []
    ensures Conv(f, p, u, a % |u|) == Conv(f, p, u, a) == Per(ConvSeq(f, p, u), a)
  {
    hide Per, Times;
    PerShift(u, a, 0);
    PerShift(u, a, -1);
    PerShift(u, a, -2);
    PerShift(u, a, -3);
    assert Per(ConvSeq(f, p, u), a) == Conv(f, p, u, a % |u|) by { PerOf(ConvSeq(f, p, u), a); }
  }

  lemma PerOf(u: seq<real>, a: int)
    requires u != []
    ensures Per(u, a) == u[a % |u|]
  {
  }

  lemma KerPeriod(f: Filter, u: seq<real>, a: int)
    requires u != []
    ensures Ker(f, u, a % |u|) == Ker(f, u, a) == Per(KerSeq(f, u), a)
  {
    hide Per, Times, Energy, Shift2, Shift4, Shift6;
    PerShift(u, a, 0);
    PerShift(u, a, 1);
    PerShift(u, a, -1);
    PerShift(u, a, 2);
    PerShift(u, a, -2);
    PerShift(u, a, 3);
    PerShift(u, a, -3);
    assert Per(KerSeq(f, u), a) == Ker(f, u, a % |u|) by { PerOf(KerSeq(f, u), a); }
  }

  // ----- all of these commute -----

  /** Two four-tap filters in either order, on seven consecutive entries. */
  lemma FourByFour(g: seq<real>, h: seq<real>, w: seq<real>)
    requires |g| == 4 == |h| && |w| == 7
    ensures Times(g[0], Against(h, w, 0)) + Times(g[1], Against(h, w, 1)) + Times(g[2], Against(h, w, 2))
          + Times(g[3], Against(h, w, 3))
         == Times(h[0], Against(g, w, 0)) + Times(h[1], Against(g, w, 1)) + Times(h[2], Against(g, w, 2))
          + Times(h[3], Against(g, w, 3))
  {
    hide Times;
    forall i, j | 0 <= i < 4 && 0 <= j < 4
      ensures Times(g[i], Times(h[j], w[i + j])) == Times(h[j], Times(g[i], w[i + j]))
    {
      TimesAssociates(g[i], h[j], w[i + j]);
    }
    AgainstTimes(g[0], h, w, 0);
    AgainstTimes(g[1], h, w, 1);
    AgainstTimes(g[2], h, w, 2);
    AgainstTimes(g[3], h, w, 3);
    AgainstTimes(h[0], g, w, 0);
    AgainstTimes(h[1], g, w, 1);
    AgainstTimes(h[2], g, w, 2);
    AgainstTimes(h[3], g, w, 3);
  }

  function Against(h: seq<real>, w: seq<real>, i: nat): real
    requires |h| == 4 && i + 4 <= |w|
  {
    Times(h[0], w[i]) + Times(h[1], w[i + 1]) + Times(h[2], w[i + 2]) + Times(h[3], w[i + 3])
  }

  lemma AgainstTimes(c: real, h: seq<real>, w: seq<real>, i: nat)
    requires |h| == 4 && i + 4 <= |w|
    ensures Times(c, Against(h, w, i)) == Times(c, Times(h[0], w[i])) + Times(c, Times(h[1], w[i + 1]))
                                        + Times(c, Times(h[2], w[i + 2])) + Times(c, Times(h[3], w[i + 3]))
  {
    FourTimesSum(c, Times(h[0], w[i]), Times(h[1], w[i + 1]), Times(h[2], w[i + 2]), Times(h[3], w[i + 3]));
  }

  lemma FourTimesSum(c: real, a: real, b: real, d: real, e: real)
    ensures Times(c, a + b + d + e) == Times(c, a) + Times(c, b) + Times(c, d) + Times(c, e)
  {
    TimesPlus(c, a, b);
    TimesPlus(c, a + b, d);
    TimesPlus(c, a + b + d, e);
  }

  /** The taps of one parity. */
  function Phase(f: Filter, p: nat): (g: seq<real>)
    requires p < 2
    ensures |g| == 4
  {
    [f[p], f[p + 2], f[p + 4], f[p + 6]]
  }

  function Before(u: seq<real>, j: int): (w: seq<real>)
    requires u != []
    ensures |w| == 7
  {
    [Per(u, j), Per(u, j - 1), Per(u, j - 2), Per(u, j - 3), Per(u, j - 4), Per(u, j - 5), Per(u, j - 6)]
  }

  lemma ConvTwice(f: Filter, p: nat, q: nat, u: seq<real>, j: int)
    requires p < 2 && q < 2 && u != []
    ensures var g, h, w := Phase(f, p), Phase(f, q), Before(u, j);
      Conv(f, p, ConvSeq(f, q, u), j)
      == Times(g[0], Against(h, w, 0)) + Times(g[1], Against(h, w, 1)) + Times(g[2], Against(h, w, 2))
       + Times(g[3], Against(h, w, 3))
  {
    hide Times, Per;
    ConvPeriod(f, q, u, j);
    ConvPeriod(f, q, u, j - 1);
    ConvPeriod(f, q, u, j - 2);
    ConvPeriod(f, q, u, j - 3);
    hide ConvSeq;
  }

  lemma ConvCommutes(f: Filter, u: seq<real>, j: int)
    requires u != []
    ensures Conv(f, 0, ConvSeq(f, 1, u), j) == Conv(f, 1, ConvSeq(f, 0, u), j)
  {
    hide Conv, ConvSeq, Against, Times, Phase, Before;
    ConvTwice(f, 0, 1, u, j);
    ConvTwice(f, 1, 0, u, j);
    FourByFour(Phase(f, 0), Phase(f, 1), Before(u, j));
  }

  /** Each term of the kernel passes through the even taps. */
  lemma TermPasses(f: Filter, c: real, u: seq<real>, j: int)
    requires u != []
    ensures Times(c, Conv(f, 0, u, j))
         == Times(f[0], Times(c, Per(u, j))) + Times(f[2], Times(c, Per(u, j - 1)))
          + Times(f[4], Times(c, Per(u, j - 2))) + Times(f[6], Times(c, Per(u, j - 3)))
  {
    hide Times, Per;
    var a, b, d, e := Per(u, j), Per(u, j - 1), Per(u, j - 2), Per(u, j - 3);
    FourTimesSum(c, Times(f[0], a), Times(f[2], b), Times(f[4], d), Times(f[6], e));
    TimesAssociates(c, f[0], a);
    TimesAssociates(c, f[2], b);
    TimesAssociates(c, f[4], d);
    TimesAssociates(c, f[6], e);
  }

  lemma SevenTimes(c: real, a: real, b: real, d: real, e: real, g: real, h: real, i: real)
    ensures Times(c, a + b + d + e + g + h + i)
         == Times(c, a) + Times(c, b) + Times(c, d) + Times(c, e) + Times(c, g) + Times(c, h) + Times(c, i)
  {
    FourTimesSum(c, a, b, d, e);
    FourTimesSum(c, a + b + d + e, g, h, i);
  }

  lemma KerTimes(f: Filter, c: real, u: seq<real>, j: int)
    requires u != []
    ensures Times(c, Ker(f, u, j))
         == Times(c, Times(Energy(f) - 1.0, Per(u, j)))
          + Times(c, Times(Shift2(f), Per(u, j + 1))) + Times(c, Times(Shift2(f), Per(u, j - 1)))
          + Times(c, Times(Shift4(f), Per(u, j + 2))) + Times(c, Times(Shift4(f), Per(u, j - 2)))
          + Times(c, Times(Shift6(f), Per(u, j + 3))) + Times(c, Times(Shift6(f), Per(u, j - 3)))
  {
    hide Times, Per, Energy, Shift2, Shift4, Shift6;
    SevenTimes(c, Times(Energy(f) - 1.0, Per(u, j)), Times(Shift2(f), Per(u, j + 1)), Times(Shift2(f), Per(u, j - 1)),
               Times(Shift4(f), Per(u, j + 2)), Times(Shift4(f), Per(u, j - 2)),
               Times(Shift6(f), Per(u, j + 3)), Times(Shift6(f), Per(u, j - 3)));
  }

  lemma KerCommutes(f: Filter, u: seq<real>, j: int)
    requires u != []
    ensures Ker(f, ConvSeq(f, 0, u), j) == Conv(f, 0, KerSeq(f, u), j)
  {
    hide Times, Per, Energy, Shift2, Shift4, Shift6, ConvSeq, KerSeq;
    KerOfConv(f, u, j);
    ConvOfKer(f, u, j);
    hide Ker, Conv;
    TermPasses(f, Energy(f) - 1.0, u, j);
    TermPasses(f, Shift2(f), u, j + 1);
    TermPasses(f, Shift2(f), u, j - 1);
    TermPasses(f, Shift4(f), u, j + 2);
    TermPasses(f, Shift4(f), u, j - 2);
    TermPasses(f, Shift6(f), u, j + 3);
    TermPasses(f, Shift6(f), u, j - 3);
    KerTimes(f, f[0], u, j);
    KerTimes(f, f[2], u, j - 1);
    KerTimes(f, f[4], u, j - 2);
    KerTimes(f, f[6], u, j - 3);
  }

  lemma KerOfConv(f: Filter, u: seq<real>, j: int)
    requires u != []
    ensures Ker(f, ConvSeq(f, 0, u), j)
         == Times(Energy(f) - 1.0, Conv(f, 0, u, j))
          + Times(Shift2(f), Conv(f, 0, u, j + 1)) + Times(Shift2(f), Conv(f, 0, u, j - 1))
          + Times(Shift4(f), Conv(f, 0, u, j + 2)) + Times(Shift4(f), Conv(f, 0, u, j - 2))
          + Times(Shift6(f), Conv(f, 0, u, j + 3)) + Times(Shift6(f), Conv(f, 0, u, j - 3))
  {
    hide Times, Per, Energy, Shift2, Shift4, Shift6, Conv;
    ConvPeriod(f, 0, u, j);
    ConvPeriod(f, 0, u, j + 1);
    ConvPeriod(f, 0, u, j - 1);
    ConvPeriod(f, 0, u, j + 2);
    ConvPeriod(f, 0, u, j - 2);
    ConvPeriod(f, 0, u, j + 3);
    ConvPeriod(f, 0, u, j - 3);
  }

  lemma ConvOfKer(f: Filter, u: seq<real>, j: int)
    requires u != []
    ensures Conv(f, 0, KerSeq(f, u), j)
         == Times(f[0], Ker(f, u, j)) + Times(f[2], Ker(f, u, j - 1)) + Times(f[4], Ker(f, u, j - 2))
          + Times(f[6], Ker(f, u, j - 3))
  {
    hide Times, Per, Ker;
    KerPeriod(f, u, j);
    KerPeriod(f, u, j - 1);
    KerPeriod(f, u, j - 2);
    KerPeriod(f, u, j - 3);
  }

  // ----- synthesis and blending on the even and odd samples -----

  /** Synthesis gives the even samples by even taps and the odd samples by odd taps. */
  lemma SynthesisIsConv(f: Filter, c: seq<real>, m: nat)
    requires |c| >= 8 && |c| % 2 == 0 && m < |c|
    ensures Synthesize(f, c)[m] == Conv(f, m % 2, c[..|c| / 2], m / 2) + Conv(High(f), m % 2, c[|c| / 2..], m / 2)
  {
    hide Landed, Scattered, Times, Per, High;
    ScatterIsGather(f, c, m, |c| / 2, 0);
    LandedIsTerm(f, c, m, 0);
    LandedIsTerm(f, c, m, 1);
    LandedIsTerm(f, c, m, 2);
    LandedIsTerm(f, c, m, 3);
  }

  lemma LandedIsTerm(f: Filter, c: seq<real>, m: nat, t: nat)
    requires |c| >= 8 && |c| % 2 == 0 && m < |c| && t < 4
    ensures Landed(f, c, m, t, |c| / 2, 0)
         == Times(f[m % 2 + 2 * t], Per(c[..|c| / 2], m / 2 - t))
          + Times(High(f)[m % 2 + 2 * t], Per(c[|c| / 2..], m / 2 - t))
  {
    hide Times, High;
    var half, tap := |c| / 2, m % 2 + 2 * t;
    var i := Source(m, tap, |c|);
    SourceIs(m, t, |c|);
    assert Per(c[..half], m / 2 - t) == c[i] && Per(c[half..], m / 2 - t) == c[half..][i] == c[half + i];
  }

  lemma SourceIs(m: nat, t: nat, n: nat)
    requires n >= 8 && n % 2 == 0 && m < n && t < 4
    ensures Source(m, m % 2 + 2 * t, n) == (m / 2 - t) % (n / 2)
  {
    var j, half, i := m / 2, n / 2, Source(m, m % 2 + 2 * t, n);
    if j >= t {
      UniqueRemainder(j - t, half, 0, i);
    } else {
      UniqueRemainder(j - t, half, -1, i);
    }
  }

  lemma ConvMinus(f: Filter, p: nat, u: seq<real>, v: seq<real>, j: int)
    requires p < 2 && |u| == |v| > 0
    ensures Conv(f, p, Minus(u, v), j) == Conv(f, p, u, j) - Conv(f, p, v, j)
  {
    hide Times, Per;
    PerMinus(f[p], u, v, j);
    PerMinus(f[p + 2], u, v, j - 1);
    PerMinus(f[p + 4], u, v, j - 2);
    PerMinus(f[p + 6], u, v, j - 3);
  }

  lemma PerMinus(c: real, u: seq<real>, v: seq<real>, a: int)
    requires |u| == |v| > 0
    ensures Times(c, Per(Minus(u, v), a)) == Times(c, Per(u, a)) - Times(c, Per(v, a))
  {
    TimesPlus(c, Per(u, a) - Per(v, a), Per(v, a));
    assert Per(Minus(u, v), a) == Per(u, a) - Per(v, a);
    assert Per(u, a) - Per(v, a) + Per(v, a) == Per(u, a);
    hide Times, Per;
  }

  lemma ConvNil(f: Filter, p: nat, n: nat, j: int)
    requires p < 2 && n > 0
    ensures Conv(f, p, Nil(n), j) == 0.0 == Ker(f, Nil(n), j)
  {
    hide Times, Energy, Shift2, Shift4, Shift6;
    forall c: real
      ensures Times(c, 0.0) == 0.0
    {
      TimesOfZero(c);
    }
  }

  /** The window of these even and odd samples. */
  function Weave(e: seq<real>, o: seq<real>): (x: seq<real>)
    requires |e| == |o|
    ensures |x| == 2 * |e|
  {
    seq(2 * |e|, m requires 0 <= m < 2 * |e| => if m % 2 == 0 then e[m / 2] else o[m / 2])
  }

  /** The even (p is 0) or odd samples of a window. */
  function Part(x: seq<real>, p: nat): (u: seq<real>)
    requires p < 2 && |x| % 2 == 0
    ensures |u| == |x| / 2
  {
    seq(|x| / 2, j requires 0 <= j < |x| / 2 => x[2 * j + p])
  }

  lemma PartOfWeave(e: seq<real>, o: seq<real>)
    requires |e| == |o|
    ensures Part(Weave(e, o), 0) == e && Part(Weave(e, o), 1) == o
  {
  }

  /** A sample at an even distance is a sample of the same parity. */
  lemma AtIsPer(x: seq<real>, m: nat, l: int)
    requires |x| >= 8 && |x| % 2 == 0 && m < |x| && -3 <= l <= 3
    ensures At(x, m + 2 * l) == Per(Part(x, m % 2), m / 2 + l)
  {
    var half, a := |x| / 2, m / 2 + l;
    if a < 0 {
      UniqueRemainder(a, half, -1, a + half);
    } else if a < half {
      UniqueRemainder(a, half, 0, a);
    } else {
      UniqueRemainder(a, half, 1, a - half);
    }
  }

  lemma BlendIsKer(f: Filter, x: seq<real>, m: nat)
    requires |x| >= 8 && |x| % 2 == 0 && m < |x|
    ensures Blend(f, x, m) - x[m] == Ker(f, Part(x, m % 2), m / 2)
  {
    hide Times, Per, At, Energy, Shift2, Shift4, Shift6;
    AtIsPer(x, m, 0);
    AtIsPer(x, m, 1);
    AtIsPer(x, m, -1);
    AtIsPer(x, m, 2);
    AtIsPer(x, m, -2);
    AtIsPer(x, m, 3);
    AtIsPer(x, m, -3);
    AtInside(x, m);
    SplitOne(Energy(f), x[m]);
  }

  // ----- the converse, at the top level -----

  /** So many levels return every window of this length. */
  ghost predicate InvertsAll(f: Filter, n: nat, levels: nat)
    requires Splits(n, levels)
  {
    forall x: seq<real> :: |x| == n ==> InverseTransform(f, ForwardTransform(f, x, levels), levels) == x
  }

  lemma Returns(f: Filter, x: seq<real>, levels: nat)
    requires Splits(|x|, levels) && InvertsAll(f, |x|, levels)
    ensures InverseTransform(f, ForwardTransform(f, x, levels), levels) == x
  {
  }

  /** If several levels return x, what one level changes in x is what the deeper levels change
      in its approximation, synthesised. */
  lemma ChangeIsConv(f: Filter, x: seq<real>, levels: nat) returns (u: seq<real>)
    requires levels > 0 && Splits(|x|, levels)
    requires InverseTransform(f, ForwardTransform(f, x, levels), levels) == x
    ensures |u| == |x| / 2
    ensures forall m :: 0 <= m < |x| ==> Blend(f, x, m) - x[m] == Conv(f, m % 2, u, m / 2)
  {
    hide Analyze, Synthesize, ForwardTransform, InverseTransform, Blend, Conv;
    var y, half := Analyze(f, x), |x| / 2;
    var b := InverseTransform(f, ForwardTransform(f, y[..half], levels - 1), levels - 1);
    u := Minus(y[..half], b);
    RebuiltLevel(f, x, levels);
    var c := b + y[half..];
    assert c[..half] == b && c[half..] == y[half..];
    forall m | 0 <= m < |x|
      ensures Blend(f, x, m) - x[m] == Conv(f, m % 2, u, m / 2)
    {
      LevelIdentity(f, x, m);
      SynthesisIsConv(f, y, m);
      SynthesisIsConv(f, c, m);
      ConvMinus(f, m % 2, y[..half], b, m / 2);
    }
  }

  /** Any two sequences changed by the kernel are the even and odd taps against one sequence. */
  lemma KerIsConv(f: Filter, e: seq<real>, o: seq<real>, levels: nat) returns (u: seq<real>)
    requires levels > 0 && |e| == |o| >= 4 && Splits(2 * |e|, levels) && InvertsAll(f, 2 * |e|, levels)
    ensures |u| == |e| && ConvSeq(f, 0, u) == KerSeq(f, e) && ConvSeq(f, 1, u) == KerSeq(f, o)
  {
    hide Blend, Conv, Ker, Splits, InvertsAll, Weave;
    var x := Weave(e, o);
    Returns(f, x, levels);
    u := ChangeIsConv(f, x, levels);
    PartOfWeave(e, o);
    forall j | 0 <= j < |e|
      ensures Conv(f, 0, u, j) == Ker(f, e, j) && Conv(f, 1, u, j) == Ker(f, o, j)
    {
      BlendIsKer(f, x, 2 * j);
      BlendIsKer(f, x, 2 * j + 1);
      assert (2 * j) % 2 == 0 && (2 * j) / 2 == j && (2 * j + 1) % 2 == 1 && (2 * j + 1) / 2 == j;
    }
  }

  lemma NilSeqs(f: Filter, p: nat, n: nat)
    requires p < 2 && n > 0
    ensures ConvSeq(f, p, Nil(n)) == Nil(n) == KerSeq(f, Nil(n))
  {
    hide Conv, Ker;
    forall j | 0 <= j < n
      ensures Conv(f, p, Nil(n), j) == 0.0 == Ker(f, Nil(n), j)
    {
      ConvNil(f, p, n, j);
    }
  }

  /** The kernel twice is zero: it is the even taps against a kernel that is the odd taps
      against something the even taps annihilate. */
  lemma KerTwice(f: Filter, e: seq<real>, levels: nat)
    requires levels > 0 && |e| >= 4 && Splits(2 * |e|, levels) && InvertsAll(f, 2 * |e|, levels)
    ensures KerSeq(f, KerSeq(f, e)) == Nil(|e|)
  {
    hide Conv, Ker, Splits, InvertsAll;
    var n := |e|;
    NilSeqs(f, 0, n);
    NilSeqs(f, 1, n);
    var u := KerIsConv(f, e, Nil(n), levels);
    var v := KerIsConv(f, Nil(n), u, levels);
    forall j | 0 <= j < n
      ensures KerSeq(f, KerSeq(f, e))[j] == 0.0
    {
      KerCommutes(f, u, j);
      ConvCommutes(f, v, j);
      ConvNil(f, 1, n, j);
    }
  }

  /** What one level and its inverse change in a window. */
  function Change(f: Filter, x: seq<real>): (d: seq<real>)
    requires |x| >= 8
    ensures |d| == |x|
  {
    Minus(Blended(f, x), x)
  }

  lemma ChangeParts(f: Filter, x: seq<real>, p: nat)
    requires |x| >= 8 && |x| % 2 == 0 && p < 2
    ensures Part(Change(f, x), p) == KerSeq(f, Part(x, p))
  {
    hide Blend, Ker;
    forall j | 0 <= j < |x| / 2
      ensures Part(Change(f, x), p)[j] == KerSeq(f, Part(x, p))[j]
    {
      BlendIsKer(f, x, 2 * j + p);
      assert (2 * j + p) % 2 == p && (2 * j + p) / 2 == j;
    }
  }

  lemma NoParts(x: seq<real>)
    requires |x| % 2 == 0 && Part(x, 0) == Nil(|x| / 2) == Part(x, 1)
    ensures forall m :: 0 <= m < |x| ==> x[m] == 0.0
  {
    forall m | 0 <= m < |x|
      ensures x[m] == 0.0
    {
      assert x[m] == Part(x, m % 2)[m / 2];
    }
  }

  ghost predicate NoChange(f: Filter, x: seq<real>) {
    |x| >= 8 && |x| % 2 == 0 && forall m :: 0 <= m < |x| ==> Change(f, x)[m] == 0.0
  }

  lemma ChangeTwice(f: Filter, x: seq<real>, levels: nat)
    requires levels > 0 && |x| >= 8 && Splits(|x|, levels) && InvertsAll(f, |x|, levels)
    ensures NoChange(f, Change(f, x))
  {
    hide Change, InvertsAll, KerSeq, Part;
    var d := Change(f, x);
    assert 2 * |Part(x, 0)| == |x| == 2 * |Part(x, 1)|;
    ChangeParts(f, x, 0);
    ChangeParts(f, x, 1);
    ChangeParts(f, d, 0);
    ChangeParts(f, d, 1);
    KerTwice(f, Part(x, 0), levels);
    KerTwice(f, Part(x, 1), levels);
    NoParts(Change(f, d));
  }

  /** The change is symmetric, as the blend is analysis followed by its adjoint. */
  lemma ChangeSymmetric(f: Filter, z: seq<real>, x: seq<real>)
    requires |z| == |x| >= 8 && |x| % 2 == 0
    ensures Dot(z, Change(f, x)) == Dot(Change(f, z), x)
  {
    hide Analyze, Synthesize, DotTo, Blended, Minus;
    DotMinus(z, Blended(f, x), x, |x|);
    SynthesisIsBlended(f, x);
    SynthesisIsBlended(f, z);
    LevelAdjoint(f, z, Analyze(f, x));
    LevelAdjoint(f, x, Analyze(f, z));
    DotSymmetric(Analyze(f, x), Analyze(f, z), |x|);
    DotSymmetric(Change(f, z), x, |x|);
    DotMinus(x, Blended(f, z), z, |x|);
    DotSymmetric(x, z, |x|);
  }

  lemma {:induction false} DotSymmetric(a: seq<real>, b: seq<real>, n: nat)
    requires n <= |a| && n <= |b|
    ensures DotTo(a, b, n) == DotTo(b, a, n)
  {
    if n == 0 {
    } else {
      DotSymmetric(a, b, n - 1);
      TimesCommutes(a[n - 1], b[n - 1]);
      hide Times;
    }
  }

  lemma {:induction false} NoEnergy(d: seq<real>, n: nat)
    requires n <= |d|
    ensures DotTo(d, d, n) >= 0.0
    ensures DotTo(d, d, n) == 0.0 ==> forall m :: 0 <= m < n ==> d[m] == 0.0
  {
    if n == 0 {
    } else {
      NoEnergy(d, n - 1);
      SquareSign(d[n - 1]);
      NoSquare(d[n - 1]);
      hide Times;
    }
  }

  lemma NoSquare(a: real)
    ensures Times(a, a) == 0.0 ==> a == 0.0
  {
    if a > 0.0 {
      ProductSign(a, a);
    } else if a < 0.0 {
      ProductSign(-a, -a);
      assert Times(-a, -a) == Times(a, a);
    }
  }

  /** So nothing is changed: the top level inverts by itself. */
  lemma TopLevelInverts(f: Filter, n: nat, levels: nat)
    requires levels > 0 && Splits(n, levels) && InvertsAll(f, n, levels)
    ensures InvertsLength(f, n)
  {
    hide InvertsAll, Change, Synthesize, Analyze, DotTo;
    forall x: seq<real> | |x| == n
      ensures Synthesize(f, Analyze(f, x)) == x
    {
      var d := Change(f, x);
      ChangeTwice(f, x, levels);
      ChangeSymmetric(f, x, d);
      DotZero(x, Change(f, d), n);
      NoEnergy(d, n);
      Unchanged(f, x);
    }
    InversionForces(f, n);
  }

  lemma Unchanged(f: Filter, x: seq<real>)
    requires NoChange(f, x)
    ensures Synthesize(f, Analyze(f, x)) == x
  {
    hide Synthesize, Analyze, Blend;
    SynthesisIsBlended(f, x);
    forall m | 0 <= m < |x|
      ensures Blended(f, x)[m] == x[m]
    {
      assert Change(f, x)[m] == Blended(f, x)[m] - x[m];
    }
  }

  // ----- and then the deeper levels -----

  /** Even taps forth and back, and odd taps forth and back, are the kernel and the identity. */
  lemma ForthAndBack(f: Filter, u: seq<real>, j: int)
    requires u != []
    ensures ConvBack(f, 0, ConvSeq(f, 0, u), j) + ConvBack(f, 1, ConvSeq(f, 1, u), j) == Ker(f, u, j) + Per(u, j)
  {
    BackOfConv(f, 0, u, j);
    BackOfConv(f, 1, u, j);
    hide ConvSeq, ConvBack, Per;
    Autocorrelation(f, Per(u, j - 3), Per(u, j - 2), Per(u, j - 1), Per(u, j), Per(u, j + 1), Per(u, j + 2),
                    Per(u, j + 3));
    hide Times, Energy, Shift2, Shift4, Shift6;
  }

  lemma BackOfConv(f: Filter, p: nat, u: seq<real>, j: int)
    requires p < 2 && u != []
    ensures ConvBack(f, p, ConvSeq(f, p, u), j)
         == Times(f[p], Conv(f, p, u, j)) + Times(f[p + 2], Conv(f, p, u, j + 1))
          + Times(f[p + 4], Conv(f, p, u, j + 2)) + Times(f[p + 6], Conv(f, p, u, j + 3))
  {
    hide Times, Per, Conv;
    ConvPeriod(f, p, u, j);
    ConvPeriod(f, p, u, j + 1);
    ConvPeriod(f, p, u, j + 2);
    ConvPeriod(f, p, u, j + 3);
  }

  function Four(f: Filter, p: nat, a: real, b: real, c: real, d: real): real
    requires p < 2
  {
    Times(f[p], a) + Times(f[p + 2], b) + Times(f[p + 4], c) + Times(f[p + 6], d)
  }

  /** The four taps of one parity against themselves, at distance 2k. */
  function Auto(f: Filter, p: nat, k: nat): real
    requires p < 2 && k < 4
  {
    match k
    case 0 => Times(f[p], f[p]) + Times(f[p + 2], f[p + 2]) + Times(f[p + 4], f[p + 4]) + Times(f[p + 6], f[p + 6])
    case 1 => Times(f[p], f[p + 2]) + Times(f[p + 2], f[p + 4]) + Times(f[p + 4], f[p + 6])
    case 2 => Times(f[p], f[p + 4]) + Times(f[p + 2], f[p + 6])
    case _ => Times(f[p], f[p + 6])
  }

  lemma AutoColumns(f: Filter)
    ensures Auto(f, 0, 0) + Auto(f, 1, 0) == Energy(f) && Auto(f, 0, 1) + Auto(f, 1, 1) == Shift2(f)
    ensures Auto(f, 0, 2) + Auto(f, 1, 2) == Shift4(f) && Auto(f, 0, 3) + Auto(f, 1, 3) == Shift6(f)
  {
    forall a: real, b: real
      ensures Times(a, b) == a * b
    {
    }
    hide Times;
  }

  lemma FourTwice(f: Filter, p: nat, s: nat, a: real, b: real, c: real, d: real)
    requires p < 2 && s < 4
    ensures Times(f[p + 2 * s], Four(f, p, a, b, c, d))
         == Times(Times(f[p + 2 * s], f[p]), a) + Times(Times(f[p + 2 * s], f[p + 2]), b)
          + Times(Times(f[p + 2 * s], f[p + 4]), c) + Times(Times(f[p + 2 * s], f[p + 6]), d)
  {
    hide Times;
    var t := f[p + 2 * s];
    FourTimesSum(t, Times(f[p], a), Times(f[p + 2], b), Times(f[p + 4], c), Times(f[p + 6], d));
    TimesAssociates(t, f[p], a);
    TimesAssociates(t, f[p + 2], b);
    TimesAssociates(t, f[p + 4], c);
    TimesAssociates(t, f[p + 6], d);
  }

  lemma OneParity(f: Filter, p: nat, a: real, b: real, c: real, d: real, e: real, g: real, h: real)
    requires p < 2
    ensures Four(f, p, Four(f, p, d, c, b, a), Four(f, p, e, d, c, b), Four(f, p, g, e, d, c), Four(f, p, h, g, e, d))
         == Times(Auto(f, p, 0), d) + Times(Auto(f, p, 1), e) + Times(Auto(f, p, 1), c) + Times(Auto(f, p, 2), g)
          + Times(Auto(f, p, 2), b) + Times(Auto(f, p, 3), h) + Times(Auto(f, p, 3), a)
  {
    hide Times;
    var t0, t1, t2, t3 := f[p], f[p + 2], f[p + 4], f[p + 6];
    FourTwice(f, p, 0, d, c, b, a);
    FourTwice(f, p, 1, e, d, c, b);
    FourTwice(f, p, 2, g, e, d, c);
    FourTwice(f, p, 3, h, g, e, d);
    TimesCommutes(t0, t1);
    TimesCommutes(t0, t2);
    TimesCommutes(t0, t3);
    TimesCommutes(t1, t2);
    TimesCommutes(t1, t3);
    TimesCommutes(t2, t3);
    Sum4(Times(t0, t0), Times(t1, t1), Times(t2, t2), Times(t3, t3), d);
    Sum4(Times(t0, t1), Times(t1, t2), Times(t2, t3), 0.0, e);
    Sum4(Times(t0, t1), Times(t1, t2), Times(t2, t3), 0.0, c);
    Sum4(Times(t0, t2), Times(t1, t3), 0.0, 0.0, g);
    Sum4(Times(t0, t2), Times(t1, t3), 0.0, 0.0, b);
    hide Four;
  }

  lemma Autocorrelation(f: Filter, a: real, b: real, c: real, d: real, e: real, g: real, h: real)
    ensures Four(f, 0, Four(f, 0, d, c, b, a), Four(f, 0, e, d, c, b), Four(f, 0, g, e, d, c), Four(f, 0, h, g, e, d))
          + Four(f, 1, Four(f, 1, d, c, b, a), Four(f, 1, e, d, c, b), Four(f, 1, g, e, d, c), Four(f, 1, h, g, e, d))
         == Times(Energy(f) - 1.0, d) + Times(Shift2(f), e) + Times(Shift2(f), c) + Times(Shift4(f), g)
          + Times(Shift4(f), b) + Times(Shift6(f), h) + Times(Shift6(f), a) + d
  {
    hide Times, Four, Auto, Energy, Shift2, Shift4, Shift6;
    OneParity(f, 0, a, b, c, d, e, g, h);
    OneParity(f, 1, a, b, c, d, e, g, h);
    AutoColumns(f);
    TimesPlus(d, Auto(f, 0, 0), Auto(f, 1, 0));
    TimesPlus(e, Auto(f, 0, 1), Auto(f, 1, 1));
    TimesPlus(c, Auto(f, 0, 1), Auto(f, 1, 1));
    TimesPlus(g, Auto(f, 0, 2), Auto(f, 1, 2));
    TimesPlus(b, Auto(f, 0, 2), Auto(f, 1, 2));
    TimesPlus(h, Auto(f, 0, 3), Auto(f, 1, 3));
    TimesPlus(a, Auto(f, 0, 3), Auto(f, 1, 3));
    SplitOne(Energy(f), d);
  }

  /** If one level inverts, even and odd taps together annihilate nothing. */
  lemma ConvInjective(f: Filter, u: seq<real>)
    requires |u| >= 4 && InvertsLength(f, 2 * |u|)
    requires ConvSeq(f, 0, u) == Nil(|u|) == ConvSeq(f, 1, u)
    ensures u == Nil(|u|)
  {
    hide Conv, InvertsLength, ConvSeq;
    forall j | 0 <= j < |u|
      ensures u[j] == 0.0
    {
      ForthAndBack(f, u, j);
      NoKer(f, u, j);
      BackNil(f, 0, |u|, j);
      BackNil(f, 1, |u|, j);
      PerInside(u, j);
    }
  }

  lemma BackNil(f: Filter, p: nat, n: nat, j: int)
    requires p < 2 && n > 0
    ensures ConvBack(f, p, Nil(n), j) == 0.0
  {
    hide Times;
    forall c: real
      ensures Times(c, 0.0) == 0.0
    {
      TimesOfZero(c);
    }
  }

  lemma NoKer(f: Filter, u: seq<real>, j: nat)
    requires |u| >= 4 && InvertsLength(f, 2 * |u|) && j < |u|
    ensures Ker(f, u, j) == 0.0
  {
    hide Blend, Ker, InvertsLength, Weave;
    var x := Weave(u, u);
    PartOfWeave(u, u);
    BlendIsKer(f, x, 2 * j);
    BlendIsSample(f, x, 2 * j);
    assert (2 * j) % 2 == 0 && (2 * j) / 2 == j;
  }

  /** Every sequence is an approximation: that of its own synthesis without detail. */
  lemma ApproximationOf(f: Filter, a: seq<real>)
    requires |a| >= 4 && InvertsLength(f, 2 * |a|)
    ensures var x := Synthesize(f, a + Nil(|a|));
      Analyze(f, x)[..|a|] == a
  {
    hide Synthesize, InvertsLength, Conv, Ker;
    var n := |a|;
    var x := Synthesize(f, a + Nil(n));
    forall i | 0 <= i < n
      ensures Analyze(f, x)[i] == a[i]
    {
      LowOfSynthesis(f, a, i);
      ForthAndBack(f, a, i);
      NoKer(f, a, i);
      PerInside(a, i);
    }
  }

  lemma SampleOfSynthesis(f: Filter, a: seq<real>, m: nat)
    requires |a| >= 4 && m < 2 * |a|
    ensures Synthesize(f, a + Nil(|a|))[m] == Per(ConvSeq(f, m % 2, a), m / 2)
  {
    hide Synthesize, Conv, High;
    var c := a + Nil(|a|);
    assert c[..|a|] == a && c[|a|..] == Nil(|a|);
    SynthesisIsConv(f, c, m);
    ConvNil(High(f), m % 2, |a|, m / 2);
    ConvPeriod(f, m % 2, a, m / 2);
  }

  /** Where a tap reads, as an entry of the samples of its parity. */
  lemma TapReads(f: Filter, a: seq<real>, i: nat, p: nat, t: nat)
    requires |a| >= 4 && i < |a| && p < 2 && t < 4
    ensures Synthesize(f, a + Nil(|a|))[Wrap(2 * i + (p + 2 * t), 2 * |a|)] == Per(ConvSeq(f, p, a), i + t)
  {
    hide Synthesize, ConvSeq;
    var n := |a|;
    var m := Wrap(2 * i + (p + 2 * t), 2 * n);
    SampleOfSynthesis(f, a, m);
    if i + t < n {
      assert m % 2 == p && m / 2 == i + t;
    } else {
      assert m % 2 == p && m / 2 == i + t - n;
      UniqueRemainder(i + t, n, 1, i + t - n);
      UniqueRemainder(i + t - n, n, 0, i + t - n);
    }
  }

  lemma LowOfSynthesis(f: Filter, a: seq<real>, i: nat)
    requires |a| >= 4 && i < |a|
    ensures Analyze(f, Synthesize(f, a + Nil(|a|)))[i]
         == ConvBack(f, 0, ConvSeq(f, 0, a), i) + ConvBack(f, 1, ConvSeq(f, 1, a), i)
  {
    hide Synthesize, ConvSeq, Times, Wrap, Per;
    var x := Synthesize(f, a + Nil(|a|));
    TapReads(f, a, i, 0, 0);
    TapReads(f, a, i, 1, 0);
    TapReads(f, a, i, 0, 1);
    TapReads(f, a, i, 1, 1);
    TapReads(f, a, i, 0, 2);
    TapReads(f, a, i, 1, 2);
    TapReads(f, a, i, 0, 3);
    TapReads(f, a, i, 1, 3);
    EightTaps(f, x, i);
  }

  /** The deeper levels return every approximation too. */
  lemma DeeperInvert(f: Filter, n: nat, levels: nat)
    requires levels > 0 && Splits(n, levels) && InvertsAll(f, n, levels) && InvertsLength(f, n)
    ensures InvertsAll(f, n / 2, levels - 1)
  {
    hide InvertsLength, InverseTransform, ForwardTransform;
    forall a: seq<real> | |a| == n / 2
      ensures InverseTransform(f, ForwardTransform(f, a, levels - 1), levels - 1) == a
    {
      DeeperReturns(f, a, levels);
    }
  }

  lemma DeeperReturns(f: Filter, a: seq<real>, levels: nat)
    requires levels > 0 && Splits(2 * |a|, levels) && InvertsAll(f, 2 * |a|, levels) && InvertsLength(f, 2 * |a|)
    ensures InverseTransform(f, ForwardTransform(f, a, levels - 1), levels - 1) == a
  {
    hide InvertsAll, InvertsLength, InverseTransform, ForwardTransform, Synthesize, Analyze;
    var half, x := |a|, Synthesize(f, a + Nil(|a|));
    var y, b := Analyze(f, x), InverseTransform(f, ForwardTransform(f, a, levels - 1), levels - 1);
    ApproximationOf(f, a);
    Returns(f, x, levels);
    RebuiltLevel(f, x, levels);
    LengthInverts(f, x);
    assert y == a + y[half..];
    SameSynthesis(f, a, b, y[half..]);
  }

  /** If one level inverts, synthesis tells approximations apart. */
  lemma SameSynthesis(f: Filter, a: seq<real>, b: seq<real>, detail: seq<real>)
    requires |a| == |b| == |detail| >= 4 && InvertsLength(f, 2 * |a|)
    requires Synthesize(f, a + detail) == Synthesize(f, b + detail)
    ensures a == b
  {
    hide InvertsLength, Synthesize, Conv;
    var u := Minus(a, b);
    assert (a + detail)[..|a|] == a && (a + detail)[|a|..] == detail;
    assert (b + detail)[..|b|] == b && (b + detail)[|b|..] == detail;
    forall p, j | 0 <= p < 2 && 0 <= j < |a|
      ensures ConvSeq(f, p, u)[j] == 0.0
    {
      var m := 2 * j + p;
      assert m % 2 == p && m / 2 == j;
      SynthesisIsConv(f, a + detail, m);
      SynthesisIsConv(f, b + detail, m);
      ConvMinus(f, p, a, b, j);
    }
    assert ConvSeq(f, 0, u) == Nil(|a|) == ConvSeq(f, 1, u);
    ConvInjective(f, u);
    forall j | 0 <= j < |a|
      ensures a[j] == b[j]
    {
      assert a[j] - b[j] == Minus(a, b)[j] == Nil(|a|)[j];
    }
  }

  /** The condition is exact at every depth: so many levels invert all windows of a length if
      and only if each length they pass through meets its condition. */
  lemma {:induction false} DepthsInvertIff(f: Filter, n: nat, levels: nat)
    requires Splits(n, levels)
    ensures InvertsAll(f, n, levels) <==> InvertsDepths(f, n, levels)
    decreases levels
  {
    hide InvertsLength, InverseTransform, ForwardTransform;
    if levels == 0 {
      forall x: seq<real> | |x| == n
        ensures InverseTransform(f, ForwardTransform(f, x, 0), 0) == x
      {
        WholeBand(f, x);
      }
    } else {
      DepthsInvertIff(f, n / 2, levels - 1);
      if InvertsAll(f, n, levels) {
        TopLevelInverts(f, n, levels);
        DeeperInvert(f, n, levels);
      }
      if InvertsDepths(f, n, levels) {
        forall x: seq<real> | |x| == n
          ensures InverseTransform(f, ForwardTransform(f, x, levels), levels) == x
        {
          DepthsInvert(f, x, levels);
        }
      }
    }
  }
}
