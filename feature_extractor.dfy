/** `FeatureExtractor`: finite-difference derivatives of the X, Y and
    pressure traces, their polar form, and the fixed-layout feature vector of
    21 histograms (1980 entries) built from them. */
module FeatureExtractor {
  import opened Numerics
  import opened Histograms

  /** A positive bin count. */
  type Bins = n: nat | n > 0 witness 1

  const AngleBins: Bins := 20
  const SpeedBins: Bins := 10
  const CoordBins: Bins := 20
  const PressureBins: Bins := 10

  /** Number of histograms `process_signature` emits, and the total length of their concatenation. */
  const BlockCount: nat := 21
  const FeatureLength: nat := 1980

  // ---- Derivatives ----

  /** One forward difference: `[s[i+1] - s[i] for i in range(len(s) - 1)]`. */
  function Diff(s: seq<real>): (d: seq<real>)
    ensures |d| == if |s| == 0 then 0 else |s| - 1
    ensures forall i :: 0 <= i < |d| ==> d[i] == s[i + 1] - s[i]
  {
    if |s| <= 1 then [] else seq(|s| - 1, i requires 0 <= i < |s| - 1 => s[i + 1] - s[i])
  }

  /** The derivative of order k; order 0 is the series itself. Each order of
      differencing shortens the series by one, down to empty. */
  function Deriv(s: seq<real>, k: nat): (d: seq<real>)
    ensures |d| == if |s| <= k then 0 else |s| - k
  {
    if k == 0 then s else Diff(Deriv(s, k - 1))
  }

  /** Summing the differences recovers the series: a forward difference loses only s[0]. */
  lemma {:induction false} DiffTelescopes(s: seq<real>, i: nat)
    requires i < |s|
    ensures s[i] == s[0] + Sum(Diff(s)[..i])
  {
    if i > 0 {
      DiffTelescopes(s, i - 1);
      var d := Diff(s);
      assert d[..i] == d[..i - 1] + [d[i - 1]];
      SumAppend(d[..i - 1], [d[i - 1]]);
    }
  }

  /** A constant series has all-zero derivatives of every order k >= 1. */
  lemma {:induction false} DerivOfConstant(s: seq<real>, c: real, k: nat)
    requires k >= 1
    requires forall i :: 0 <= i < |s| ==> s[i] == c
    ensures forall i :: 0 <= i < |Deriv(s, k)| ==> Deriv(s, k)[i] == 0.0
  {
    if k > 1 {
      DerivOfConstant(s, c, k - 1);
    }
  }

  /** `d.get(k, [])`: the entry for key k, or the empty series when k is absent. */
  function Get(d: map<nat, seq<real>>, k: nat): (r: seq<real>)
    ensures k in d ==> r == d[k]
    ensures k !in d ==> r == []
  {
    if k in d then d[k] else []
  }

  /** The map from each order 1..n to the derivative of that order: exactly the
      orders 1..n are keys, each bound to its derivative. */
  function DerivMap(s: seq<real>, n: int): (d: map<nat, seq<real>>)
    ensures forall k: nat :: k in d <==> 1 <= k <= n
    ensures forall k: nat :: k in d ==> d[k] == Deriv(s, k)
    decreases if n < 1 then 0 else n
  {
    if n < 1 then map[] else DerivMap(s, n - 1)[n as nat := Deriv(s, n as nat)]
  }

  /** One more order extends the map by one entry. */
  lemma DerivMapNext(s: seq<real>, n: nat)
    requires 1 <= n
    ensures DerivMap(s, n) == DerivMap(s, n - 1)[n := Diff(Deriv(s, n - 1))]
  {
  }

  /** `compute_derivatives(data, max_order)`: a map from every order 1..maxOrder to that derivative. */
  method ComputeDerivatives(data: seq<real>, maxOrder: int) returns (derivatives: map<nat, seq<real>>)
    ensures derivatives == DerivMap(data, maxOrder)
  {
    derivatives := map[];
    var current := data;
    var k := 1;
    while k <= maxOrder
      invariant 1 <= k && (k == 1 || k <= maxOrder + 1)
      invariant derivatives == DerivMap(data, k - 1)
      invariant current == Deriv(data, k - 1)
      decreases maxOrder - k
    {
      var deriv := Diff(current);
      DerivMapNext(data, k);
      derivatives := derivatives[k := deriv];
      current := deriv;
      k := k + 1;
    }
  }

  // ---- Polar coordinates ----

  datatype PolarPair = PolarPair(radius: seq<real>, angle: seq<real>)

  /** The zip of the two derivative series mapped through hypot and atan2. */
  function Polar(m: MathOps, xs: seq<real>, ys: seq<real>): (p: PolarPair)
    ensures |p.radius| == |p.angle| == Min(|xs|, |ys|)
    ensures forall i :: 0 <= i < |p.radius| ==>
              p.radius[i] == m.hypot(xs[i], ys[i]) && p.angle[i] == m.atan2(ys[i], xs[i])
    ensures m.Sound() ==> forall i :: 0 <= i < |p.radius| ==> 0.0 <= p.radius[i] && -m.pi < p.angle[i] <= m.pi
  {
    var n := Min(|xs|, |ys|);
    var p := PolarPair(seq(n, i requires 0 <= i < n => m.hypot(xs[i], ys[i])),
                       seq(n, i requires 0 <= i < n => m.atan2(ys[i], xs[i])));
    assert forall i :: 0 <= i < n ==> (m.Sound() ==> 0.0 <= p.radius[i] && -m.pi < p.angle[i] <= m.pi) by {
      forall i | 0 <= i < n { PolarRange(m, xs[i], ys[i]); }
    }
    p
  }

  /** `compute_polar_coords(x_deriv, y_deriv)`. */
  method ComputePolarCoords(m: MathOps, xDeriv: seq<real>, yDeriv: seq<real>) returns (radius: seq<real>, angle: seq<real>)
    ensures |radius| == |angle| == Min(|xDeriv|, |yDeriv|)
    ensures PolarPair(radius, angle) == Polar(m, xDeriv, yDeriv)
    ensures m.Sound() ==> forall i :: 0 <= i < |radius| ==> 0.0 <= radius[i] && -m.pi < angle[i] <= m.pi
  {
    radius, angle := [], [];
    var n := Min(|xDeriv|, |yDeriv|);
    for i := 0 to n
      invariant |radius| == |angle| == i
      invariant forall j :: 0 <= j < i ==> radius[j] == m.hypot(xDeriv[j], yDeriv[j])
      invariant forall j :: 0 <= j < i ==> angle[j] == m.atan2(yDeriv[j], xDeriv[j])
    {
      radius := radius + [m.hypot(xDeriv[i], yDeriv[i])];
      angle := angle + [m.atan2(yDeriv[i], xDeriv[i])];
    }
    assert PolarPair(radius, angle) == Polar(m, xDeriv, yDeriv);
  }

  // ---- The traces the histograms are taken over ----

  datatype Traces = Traces(
    x1: seq<real>, x2: seq<real>, y1: seq<real>, y2: seq<real>, p1: seq<real>, p2: seq<real>,
    r1: seq<real>, theta1: seq<real>, r2: seq<real>, theta2Deriv: seq<real>,
    theta1Valid: seq<real>, phiD2: seq<real>)

  /** The series `process_signature` derives before binning. */
  function SignatureTraces(m: MathOps, X: seq<real>, Y: seq<real>, P: seq<real>): (t: Traces)
    ensures |t.theta1Valid| == |t.phiD2| == if |t.theta1| <= 2 then 0 else |t.theta1| - 2
    ensures |t.theta2Deriv| == if |t.theta1| <= 1 then 0 else |t.theta1| - 1
    ensures |t.r1| == |t.theta1| <= |t.x1|
  {
    var x1, x2 := Deriv(X, 1), Deriv(X, 2);
    var y1, y2 := Deriv(Y, 1), Deriv(Y, 2);
    var p1, p2 := Deriv(P, 1), Deriv(P, 2);
    var first := if x1 != [] && y1 != [] then Polar(m, x1, y1) else PolarPair([], []);
    var theta1 := first.angle;
    var theta2Deriv := if |theta1| > 1 then Diff(theta1) else [];
    var phiD := Diff(theta1);
    var phiD2 := if |phiD| > 1 then Diff(phiD) else [];
    var theta1Valid := if |theta1| >= 2 then theta1[..|theta1| - 2] else [];
    var r2 := if x2 != [] && y2 != [] then Polar(m, x2, y2).radius else [];
    Traces(x1, x2, y1, y2, p1, p2, first.radius, theta1, r2, theta2Deriv, theta1Valid, phiD2)
  }

  // ---- The 21 histograms, in order ----

  /** Which derived series a histogram bins. */
  datatype Series = Theta1 | Theta2Deriv | Theta1Valid | PhiD2 | R1 | R2 | X1 | Y1 | X2 | Y2 | P1 | P2

  /** All of a series, or the part before or after its midpoint `len // 2`. */
  datatype Part = Whole | FirstHalf | SecondHalf

  /** The bounds passed to a histogram call: -pi and pi, or 0 and 0 (replaced by a sigma range). */
  datatype Bounds = AngleBounds | ZeroBounds

  /** One histogram call of the layout. A 2-D one cuts both series to the shorter
      length first, then takes the part. */
  datatype HistSpec =
    | OneD(series: Series, part: Part, bins: Bins, bounds: Bounds, freq: FreqType, sigma: real)
    | TwoD(xSeries: Series, ySeries: Series, part: Part, xBins: Bins, yBins: Bins,
           xBounds: Bounds, yBounds: Bounds, xSigma: real, ySigma: real, freq: FreqType)
  {
    function Width(): nat {
      if OneD? then bins else xBins * yBins
    }
  }

  function Select(t: Traces, s: Series): seq<real> {
    match s
    case Theta1 => t.theta1
    case Theta2Deriv => t.theta2Deriv
    case Theta1Valid => t.theta1Valid
    case PhiD2 => t.phiD2
    case R1 => t.r1
    case R2 => t.r2
    case X1 => t.x1
    case Y1 => t.y1
    case X2 => t.x2
    case Y2 => t.y2
    case P1 => t.p1
    case P2 => t.p2
  }

  function Lower(m: MathOps, b: Bounds): real { if b == AngleBounds then -m.pi else 0.0 }
  function Upper(m: MathOps, b: Bounds): real { if b == AngleBounds then m.pi else 0.0 }

  function Piece(d: seq<real>, part: Part, split: nat): seq<real>
    requires split <= |d|
  {
    match part
    case Whole => d
    case FirstHalf => d[..split]
    case SecondHalf => d[split..]
  }

  /** Cutting two sequences of one length at one split gives pieces of one length. */
  lemma PieceSameLength(d: seq<real>, e: seq<real>, part: Part, split: nat)
    requires split <= |d| == |e|
    ensures |Piece(d, part, split)| == |Piece(e, part, split)|
  {
  }

  /** The histogram one layout entry produces from the traces. */
  function Render(m: MathOps, t: Traces, spec: HistSpec): (h: seq<real>)
    ensures |h| == spec.Width()
  {
    match spec
    case OneD(series, part, bins, bounds, freq, sigma) =>
      var d := Select(t, series);
      Hist1D(m, Piece(d, part, |d| / 2), bins, Lower(m, bounds), Upper(m, bounds), freq, sigma)
    case TwoD(xSeries, ySeries, part, xBins, yBins, xBounds, yBounds, xSigma, ySigma, freq) =>
      var xs, ys := Select(t, xSeries), Select(t, ySeries);
      var n := Min(|xs|, |ys|);
      Hist2D(m, Piece(xs[..n], part, n / 2), Piece(ys[..n], part, n / 2), xBins, yBins,
             Lower(m, xBounds), Upper(m, xBounds), Lower(m, yBounds), Upper(m, yBounds), xSigma, ySigma, freq)
  }

  /** Every histogram of a list of layout entries, each as wide as its entry says. */
  function RenderAll(m: MathOps, t: Traces, specs: seq<HistSpec>): (hs: seq<seq<real>>)
    ensures |hs| == |specs|
    ensures forall k :: 0 <= k < |specs| ==> |hs[k]| == specs[k].Width()
  {
    if specs == [] then [] else [Render(m, t, specs[0])] + RenderAll(m, t, specs[1..])
  }

  lemma {:induction false} RenderAllAt(m: MathOps, t: Traces, specs: seq<HistSpec>, k: nat)
    requires k < |specs|
    ensures RenderAll(m, t, specs)[k] == Render(m, t, specs[k])
  {
    if k > 0 {
      RenderAllAt(m, t, specs[1..], k - 1);
    }
  }

  /** The histogram calls of `process_signature`, in the order their results are
      appended: entry k carries the series, half, bin counts, bounds, counting
      mode and sigma factors of the k-th call. */
  function Layout(): (specs: seq<HistSpec>)
    ensures |specs| == BlockCount
  {
    [
      OneD(Theta1, Whole, AngleBins, AngleBounds, Relative, 0.0),
      OneD(Theta2Deriv, Whole, AngleBins, AngleBounds, Relative, 0.0),
      TwoD(Theta1Valid, PhiD2, Whole, AngleBins, AngleBins, AngleBounds, AngleBounds, 0.0, 0.0, Absolute),
      OneD(R1, Whole, SpeedBins, ZeroBounds, Absolute, 3.0),
      OneD(R2, Whole, SpeedBins, ZeroBounds, Absolute, 3.0),
      OneD(X1, Whole, CoordBins, ZeroBounds, Relative, 3.0),
      OneD(Y1, Whole, CoordBins, ZeroBounds, Relative, 3.0),
      OneD(X2, Whole, CoordBins, ZeroBounds, Relative, 3.0),
      OneD(Y2, Whole, CoordBins, ZeroBounds, Relative, 3.0),
      TwoD(X1, X2, Whole, CoordBins / 2, CoordBins / 2, ZeroBounds, ZeroBounds, 3.0, 3.0, Relative),
      TwoD(Y1, Y2, Whole, CoordBins / 2, CoordBins / 2, ZeroBounds, ZeroBounds, 3.0, 3.0, Relative),
      TwoD(Theta1, R1, FirstHalf, AngleBins, SpeedBins, AngleBounds, ZeroBounds, 0.0, 3.0, Relative),
      TwoD(Theta1, R1, SecondHalf, AngleBins, SpeedBins, AngleBounds, ZeroBounds, 0.0, 3.0, Relative),
      TwoD(Theta2Deriv, R2, FirstHalf, AngleBins, SpeedBins, AngleBounds, ZeroBounds, 0.0, 3.0, Relative),
      TwoD(Theta2Deriv, R2, SecondHalf, AngleBins, SpeedBins, AngleBounds, ZeroBounds, 0.0, 3.0, Relative),
      TwoD(Theta1, R2, FirstHalf, AngleBins, SpeedBins, AngleBounds, ZeroBounds, 0.0, 3.0, Relative),
      TwoD(Theta1, R2, SecondHalf, AngleBins, SpeedBins, AngleBounds, ZeroBounds, 0.0, 3.0, Relative),
      OneD(P1, FirstHalf, PressureBins, ZeroBounds, Absolute, 3.0),
      OneD(P1, SecondHalf, PressureBins, ZeroBounds, Absolute, 3.0),
      OneD(P2, FirstHalf, PressureBins, ZeroBounds, Relative, 3.0),
      OneD(P2, SecondHalf, PressureBins, ZeroBounds, Relative, 3.0)
    ]
  }

  /** The first five entries of the layout, one by one. */
  lemma AngleAndSpeedEntries()
    ensures Layout()[0] == OneD(Theta1, Whole, AngleBins, AngleBounds, Relative, 0.0)
    ensures Layout()[1] == OneD(Theta2Deriv, Whole, AngleBins, AngleBounds, Relative, 0.0)
    ensures Layout()[2] == TwoD(Theta1Valid, PhiD2, Whole, AngleBins, AngleBins, AngleBounds, AngleBounds, 0.0, 0.0, Absolute)
    ensures Layout()[3] == OneD(R1, Whole, SpeedBins, ZeroBounds, Absolute, 3.0)
    ensures Layout()[4] == OneD(R2, Whole, SpeedBins, ZeroBounds, Absolute, 3.0)
  {
  }

  /** The widths of the 21 histograms: bins for a 1-D call, xBins·yBins for a 2-D one. */
  lemma LayoutWidths()
    ensures forall k :: 0 <= k < BlockCount ==> Layout()[k].Width() == BlockWidth(k)
  {
  }

  /** Width of histogram k of the layout. */
  function BlockWidth(k: nat): nat {
    if k < 2 then 20 else if k == 2 then 400 else if k < 5 then 10
    else if k < 9 then 20 else if k < 11 then 100 else if k < 17 then 200 else 10
  }

  /** Index at which histogram k starts in the feature vector. */
  function Offset(k: nat): nat {
    if k <= 2 then 20 * k else if k <= 5 then 440 + 10 * (k - 3)
    else if k <= 9 then 460 + 20 * (k - 5) else if k <= 11 then 540 + 100 * (k - 9)
    else if k <= 17 then 740 + 200 * (k - 11) else 1940 + 10 * (k - 17)
  }

  function Blocks(m: MathOps, t: Traces): (b: seq<seq<real>>)
    ensures |b| == BlockCount
    ensures forall k :: 0 <= k < BlockCount ==> |b[k]| == BlockWidth(k)
  {
    LayoutWidths();
    RenderAll(m, t, Layout())
  }

  /** Blocks j up to (not including) k, concatenated in order. */
  function Span(bs: seq<seq<real>>, j: nat, k: nat): seq<real>
    requires j <= k <= |bs|
    decreases k
  {
    if k == j then [] else Span(bs, j, k - 1) + bs[k - 1]
  }

  lemma {:induction false} SpanSplit(bs: seq<seq<real>>, i: nat, j: nat, k: nat)
    requires i <= j <= k <= |bs|
    ensures Span(bs, i, k) == Span(bs, i, j) + Span(bs, j, k)
    decreases k
  {
    if k > j {
      SpanSplit(bs, i, j, k - 1);
      assert Span(bs, i, j) + Span(bs, j, k - 1) + bs[k - 1] == Span(bs, i, j) + (Span(bs, j, k - 1) + bs[k - 1]);
    }
  }

  /** The whole span cut where the sections of `process_signature` meet. */
  lemma SpanSections(bs: seq<seq<real>>)
    requires |bs| == BlockCount
    ensures Span(bs, 0, BlockCount)
         == [] + Span(bs, 0, 3) + Span(bs, 3, 5) + Span(bs, 5, 9) + Span(bs, 9, 11) + Span(bs, 11, 17) + Span(bs, 17, 21)
  {
    var s := [] + Span(bs, 0, 3);
    assert s == Span(bs, 0, 3);
    SpanSplit(bs, 0, 3, 5);
    s := s + Span(bs, 3, 5);
    SpanSplit(bs, 0, 5, 9);
    s := s + Span(bs, 5, 9);
    SpanSplit(bs, 0, 9, 11);
    s := s + Span(bs, 9, 11);
    SpanSplit(bs, 0, 11, 17);
    s := s + Span(bs, 11, 17);
    SpanSplit(bs, 0, 17, 21);
    s := s + Span(bs, 17, 21);
    assert s == Span(bs, 0, BlockCount);
  }

  lemma {:induction false} SpanLength(bs: seq<seq<real>>, k: nat)
    requires k <= |bs| <= BlockCount
    requires forall j :: 0 <= j < |bs| ==> |bs[j]| == BlockWidth(j)
    ensures |Span(bs, 0, k)| == Offset(k)
  {
    if k > 0 {
      SpanLength(bs, k - 1);
    }
  }

  lemma {:induction false} SpanPrefix(bs: seq<seq<real>>, j: nat, k: nat)
    requires j <= k <= |bs|
    ensures Span(bs, 0, j) <= Span(bs, 0, k)
    decreases k - j
  {
    if j < k {
      SpanPrefix(bs, j, k - 1);
    }
  }

  /** The feature vector of one stroke: the 21 histograms concatenated, always 1980 entries. */
  function Features(m: MathOps, X: seq<real>, Y: seq<real>, P: seq<real>): (f: seq<real>)
    ensures |f| == FeatureLength
  {
    var bs := Blocks(m, SignatureTraces(m, X, Y, P));
    SpanLength(bs, BlockCount);
    Span(bs, 0, BlockCount)
  }

  /** Block k ends where block k + 1 starts, no later than the end of the feature vector. */
  lemma OffsetStep(k: nat)
    requires k < BlockCount
    ensures Offset(k) + BlockWidth(k) == Offset(k + 1) <= FeatureLength
  {
  }

  lemma SliceOfPrefix(whole: seq<real>, pre: seq<real>, b: seq<real>)
    requires pre + b <= whole
    ensures whole[|pre|..|pre| + |b|] == b
  {
    assert whole[..|pre| + |b|] == pre + b;
    assert (pre + b)[|pre|..] == b;
  }

  /** In a concatenation of blocks of the layout's widths, block k sits at Offset(k). */
  lemma SpanPlacement(bs: seq<seq<real>>, k: nat)
    requires |bs| == BlockCount && k < BlockCount
    requires forall j :: 0 <= j < |bs| ==> |bs[j]| == BlockWidth(j)
    ensures Offset(k) + BlockWidth(k) == Offset(k + 1) <= FeatureLength
    ensures |Span(bs, 0, BlockCount)| == FeatureLength
    ensures Span(bs, 0, BlockCount)[Offset(k)..Offset(k + 1)] == bs[k]
  {
    OffsetStep(k);
    SpanLength(bs, k);
    SpanLength(bs, BlockCount);
    SpanPrefix(bs, k + 1, BlockCount);
    SliceOfPrefix(Span(bs, 0, BlockCount), Span(bs, 0, k), bs[k]);
  }

  /** Histogram k of the layout occupies indices Offset(k) up to Offset(k + 1) of the feature vector. */
  lemma FeatureLayout(m: MathOps, X: seq<real>, Y: seq<real>, P: seq<real>, k: nat)
    requires k < BlockCount
    ensures Offset(k) + BlockWidth(k) == Offset(k + 1) <= FeatureLength
    ensures Features(m, X, Y, P)[Offset(k)..Offset(k + 1)] == Render(m, SignatureTraces(m, X, Y, P), Layout()[k])
  {
    var t := SignatureTraces(m, X, Y, P);
    SpanPlacement(Blocks(m, t), k);
    RenderAllAt(m, t, Layout(), k);
  }

  /** Traces in which every series is empty: what a stroke of at most one point gives. */
  ghost predicate AllEmpty(t: Traces) {
    t.x1 == t.x2 == t.y1 == t.y2 == t.p1 == t.p2 == t.r1 == t.theta1 == t.r2
      == t.theta2Deriv == t.theta1Valid == t.phiD2 == []
  }

  /** Over empty series every histogram of the layout is all zeros. */
  lemma RenderOfEmpty(m: MathOps, t: Traces, spec: HistSpec)
    requires AllEmpty(t)
    ensures Render(m, t, spec) == Zeros(spec.Width())
  {
    match spec
    case OneD(series, part, bins, bounds, freq, sigma) =>
      SelectOfEmpty(t, series);
      assert Piece([], part, 0) == [];
    case TwoD(xSeries, ySeries, part, xBins, yBins, xBounds, yBounds, xSigma, ySigma, freq) =>
      SelectOfEmpty(t, xSeries);
      SelectOfEmpty(t, ySeries);
      assert Piece([], part, 0) == [];
  }

  lemma SelectOfEmpty(t: Traces, s: Series)
    requires AllEmpty(t)
    ensures Select(t, s) == []
  {
  }

  lemma {:induction false} SpanOfZeros(bs: seq<seq<real>>, k: nat)
    requires k <= |bs|
    requires forall j :: 0 <= j < |bs| ==> bs[j] == Zeros(|bs[j]|)
    ensures Span(bs, 0, k) == Zeros(|Span(bs, 0, k)|)
  {
    if k > 0 {
      SpanOfZeros(bs, k - 1);
    }
  }

  /** A stroke of at most one sample has no derivatives, so its feature vector is 1980 zeros. */
  lemma ShortStrokeFeatures(m: MathOps, X: seq<real>, Y: seq<real>, P: seq<real>)
    requires |X| <= 1 && |Y| <= 1 && |P| <= 1
    ensures Features(m, X, Y, P) == Zeros(FeatureLength)
  {
    var t := SignatureTraces(m, X, Y, P);
    assert AllEmpty(t);
    var bs := Blocks(m, t);
    forall j | 0 <= j < |bs|
      ensures bs[j] == Zeros(|bs[j]|)
    {
      RenderAllAt(m, t, Layout(), j);
      RenderOfEmpty(m, t, Layout()[j]);
    }
    SpanOfZeros(bs, BlockCount);
  }

  /** A straight stroke sampled at a constant step (dx, dy): every direction is
      atan2(dy, dx), every speed hypot(dx, dy), and the direction never changes. */
  lemma StraightStrokeTraces(m: MathOps, X: seq<real>, Y: seq<real>, P: seq<real>, dx: real, dy: real)
    requires |X| >= 2 && |Y| >= 2
    requires forall i :: 0 <= i < |X| - 1 ==> X[i + 1] - X[i] == dx
    requires forall i :: 0 <= i < |Y| - 1 ==> Y[i + 1] - Y[i] == dy
    ensures var t := SignatureTraces(m, X, Y, P);
      && |t.theta1| == Min(|X|, |Y|) - 1
      && (forall i :: 0 <= i < |t.theta1| ==> t.theta1[i] == m.atan2(dy, dx) && t.r1[i] == m.hypot(dx, dy))
      && (forall i :: 0 <= i < |t.theta2Deriv| ==> t.theta2Deriv[i] == 0.0)
  {
    var t := SignatureTraces(m, X, Y, P);
    var x1, y1 := Deriv(X, 1), Deriv(Y, 1);
    assert x1 == Diff(Deriv(X, 0)) && Deriv(X, 0) == X;
    assert y1 == Diff(Deriv(Y, 0)) && Deriv(Y, 0) == Y;
    assert forall i :: 0 <= i < |x1| ==> x1[i] == dx;
    assert forall i :: 0 <= i < |y1| ==> y1[i] == dy;
    assert t.theta1 == Polar(m, x1, y1).angle && t.r1 == Polar(m, x1, y1).radius;
  }

  /** Equal directions fill the first histogram's bin that holds atan2(dy, dx)
      with 1, and leave the other 19 at 0. */
  lemma StraightStrokeDirections(m: MathOps, X: seq<real>, Y: seq<real>, P: seq<real>, dx: real, dy: real)
    requires |X| >= 2 && |Y| >= 2
    requires forall i :: 0 <= i < |X| - 1 ==> X[i + 1] - X[i] == dx
    requires forall i :: 0 <= i < |Y| - 1 ==> Y[i + 1] - Y[i] == dy
    requires m.Sound()
    ensures var e, a := Linspace(-m.pi, m.pi, AngleBins), m.atan2(dy, dx);
      exists b :: 0 <= b < AngleBins && InBin(e, a, b) &&
        forall j :: 0 <= j < AngleBins ==> Blocks(m, SignatureTraces(m, X, Y, P))[0][j] == if j == b then 1.0 else 0.0
  {
    StraightStrokeTraces(m, X, Y, P, dx, dy);
    PolarRange(m, dx, dy);
    ConstantDirections(m, SignatureTraces(m, X, Y, P), m.atan2(dy, dx));
  }

  /** Directions all equal to one angle a in [-pi, pi] fill exactly one bin of histogram 1. */
  lemma ConstantDirections(m: MathOps, t: Traces, a: real)
    requires m.Sound() && -m.pi <= a <= m.pi
    requires t.theta1 != [] && forall i :: 0 <= i < |t.theta1| ==> t.theta1[i] == a
    ensures var e := Linspace(-m.pi, m.pi, AngleBins);
      exists b :: 0 <= b < AngleBins && InBin(e, a, b) &&
        forall j :: 0 <= j < AngleBins ==> Blocks(m, t)[0][j] == if j == b then 1.0 else 0.0
  {
    var e := Linspace(-m.pi, m.pi, AngleBins);
    Block1D(m, t, 0, Layout()[0], t.theta1, -m.pi, m.pi);
    var b := Locate(e, a, 0);
    LocateInBin(e, a, 0);
    Hist1DSingleBin(m, t.theta1, AngleBins, -m.pi, m.pi, a, b);
    assert 0 <= b < AngleBins && InBin(e, a, b);
  }

  /** Constant directions make every change of direction 0, which lands in bin 10
      of the second histogram, [0, pi/10): it holds 1, the other bins 0. */
  lemma StraightStrokeTurns(m: MathOps, X: seq<real>, Y: seq<real>, P: seq<real>, dx: real, dy: real)
    requires |X| >= 3 && |Y| >= 3
    requires forall i :: 0 <= i < |X| - 1 ==> X[i + 1] - X[i] == dx
    requires forall i :: 0 <= i < |Y| - 1 ==> Y[i + 1] - Y[i] == dy
    requires m.Sound()
    ensures forall j :: 0 <= j < AngleBins ==>
      Blocks(m, SignatureTraces(m, X, Y, P))[1][j] == if j == AngleBins / 2 then 1.0 else 0.0
  {
    StraightStrokeTraces(m, X, Y, P, dx, dy);
    NoTurns(m, SignatureTraces(m, X, Y, P));
  }

  /** All-zero direction changes fill bin 10 of histogram 2. */
  lemma NoTurns(m: MathOps, t: Traces)
    requires m.Sound()
    requires t.theta2Deriv != [] && forall i :: 0 <= i < |t.theta2Deriv| ==> t.theta2Deriv[i] == 0.0
    ensures forall j :: 0 <= j < AngleBins ==> Blocks(m, t)[1][j] == if j == AngleBins / 2 then 1.0 else 0.0
  {
    var e := Linspace(-m.pi, m.pi, AngleBins);
    Block1D(m, t, 1, Layout()[1], t.theta2Deriv, -m.pi, m.pi);
    assert InBin(e, 0.0, 10);
    Hist1DSingleBin(m, t.theta2Deriv, AngleBins, -m.pi, m.pi, 0.0, 10);
  }

  /** Block k of a one-dimensional entry is `_hist_1d` of its (halved) series with the entry's bounds. */
  lemma Block1D(m: MathOps, t: Traces, k: nat, spec: HistSpec, d: seq<real>, lo: real, hi: real)
    requires k < BlockCount && Layout()[k] == spec && spec.OneD?
    requires var s := Select(t, spec.series); d == Piece(s, spec.part, |s| / 2)
    requires lo == Lower(m, spec.bounds) && hi == Upper(m, spec.bounds)
    ensures Blocks(m, t)[k] == Hist1D(m, d, spec.bins, lo, hi, spec.freq, spec.sigma)
  {
    RenderAllAt(m, t, Layout(), k);
  }

  /** Block k of a two-dimensional entry is `_hist_2d` of its two series, cut to a common length and halved. */
  lemma Block2D(m: MathOps, t: Traces, k: nat, spec: HistSpec, xs: seq<real>, ys: seq<real>,
                xLo: real, xHi: real, yLo: real, yHi: real)
    requires k < BlockCount && Layout()[k] == spec && spec.TwoD?
    requires var xs0, ys0 := Select(t, spec.xSeries), Select(t, spec.ySeries);
      var n := Min(|xs0|, |ys0|);
      xs == Piece(xs0[..n], spec.part, n / 2) && ys == Piece(ys0[..n], spec.part, n / 2)
    requires xLo == Lower(m, spec.xBounds) && xHi == Upper(m, spec.xBounds)
    requires yLo == Lower(m, spec.yBounds) && yHi == Upper(m, spec.yBounds)
    ensures |xs| == |ys|
    ensures Blocks(m, t)[k] == Hist2D(m, xs, ys, spec.xBins, spec.yBins, xLo, xHi, yLo, yHi,
                                      spec.xSigma, spec.ySigma, spec.freq)
  {
    RenderAllAt(m, t, Layout(), k);
    assert Blocks(m, t)[k] == Render(m, t, spec);
    var xs0, ys0 := Select(t, spec.xSeries), Select(t, spec.ySeries);
    var n := Min(|xs0|, |ys0|);
    PieceSameLength(xs0[..n], ys0[..n], spec.part, n / 2);
    assert Render(m, t, spec) == Hist2D(m, xs, ys, spec.xBins, spec.yBins, xLo, xHi, yLo, yHi,
                                      spec.xSigma, spec.ySigma, spec.freq);
  }

  /** Iteration i of the coordinate loop (histograms 6-9). */
  lemma CoordStep(m: MathOps, t: Traces, i: nat, d: seq<real>)
    requires i < 4 && d == [t.x1, t.y1, t.x2, t.y2][i]
    ensures Blocks(m, t)[5 + i] == Hist1D(m, d, CoordBins, 0.0, 0.0, Relative, 3.0)
  {
    var name := [X1, Y1, X2, Y2][i];
    Block1D(m, t, 5 + i, OneD(name, Whole, CoordBins, ZeroBounds, Relative, 3.0), d, 0.0, 0.0);
  }

  /** Iteration i of the coordinate-pair loop (histograms 10-11). */
  lemma PairStep(m: MathOps, t: Traces, i: nat, x: seq<real>, y: seq<real>)
    requires i < 2 && (x, y) == [(t.x1, t.x2), (t.y1, t.y2)][i]
    ensures var minLen := Min(|x|, |y|);
      Blocks(m, t)[9 + i] == Hist2D(m, x[..minLen], y[..minLen], CoordBins / 2, CoordBins / 2,
                                    0.0, 0.0, 0.0, 0.0, 3.0, 3.0, Relative)
  {
    var names := [(X1, X2), (Y1, Y2)][i];
    var minLen := Min(|x|, |y|);
    Block2D(m, t, 9 + i, TwoD(names.0, names.1, Whole, CoordBins / 2, CoordBins / 2, ZeroBounds, ZeroBounds, 3.0, 3.0, Relative),
            x[..minLen], y[..minLen], 0.0, 0.0, 0.0, 0.0);
  }

  /** One half of one pairing of the angle-speed loop. */
  lemma AngleSpeedHalf(m: MathOps, t: Traces, k: nat, a: seq<real>, s: seq<real>, names: (Series, Series), part: Part)
    requires k < BlockCount && part != Whole
    requires Layout()[k] == TwoD(names.0, names.1, part, AngleBins, SpeedBins, AngleBounds, ZeroBounds, 0.0, 3.0, Relative)
    requires a == Select(t, names.0) && s == Select(t, names.1)
    ensures var minLen := Min(|a|, |s|);
      var split := minLen / 2;
      var xs := Piece(a[..minLen], part, split);
      var ys := Piece(s[..minLen], part, split);
      |xs| == |ys| &&
      Blocks(m, t)[k] == Hist2D(m, xs, ys, AngleBins, SpeedBins, -m.pi, m.pi, 0.0, 0.0, 0.0, 3.0, Relative)
  {
    var minLen := Min(|a|, |s|);
    var split := minLen / 2;
    Block2D(m, t, k, Layout()[k], Piece(a[..minLen], part, split), Piece(s[..minLen], part, split), -m.pi, m.pi, 0.0, 0.0);
  }

  /** Iteration i of the angle-speed loop (histograms 12-17): first half, then second half. */
  lemma AngleSpeedStep(m: MathOps, t: Traces, i: nat, a: seq<real>, s: seq<real>)
    requires i < 3 && (a, s) == [(t.theta1, t.r1), (t.theta2Deriv, t.r2), (t.theta1, t.r2)][i]
    ensures var minLen := Min(|a|, |s|);
      var split := minLen / 2;
      && Blocks(m, t)[11 + 2 * i] == Hist2D(m, a[..minLen][..split], s[..minLen][..split], AngleBins, SpeedBins,
                                            -m.pi, m.pi, 0.0, 0.0, 0.0, 3.0, Relative)
      && Blocks(m, t)[12 + 2 * i] == Hist2D(m, a[..minLen][split..], s[..minLen][split..], AngleBins, SpeedBins,
                                            -m.pi, m.pi, 0.0, 0.0, 0.0, 3.0, Relative)
  {
    var names := [(Theta1, R1), (Theta2Deriv, R2), (Theta1, R2)][i];
    AngleSpeedHalf(m, t, 11 + 2 * i, a, s, names, FirstHalf);
    AngleSpeedHalf(m, t, 12 + 2 * i, a, s, names, SecondHalf);
  }

  /** Iteration i of the pressure loop (histograms 18-21): first half, then second half. */
  lemma PressureStep(m: MathOps, t: Traces, i: nat, p: seq<real>, bins: nat, freq: FreqType)
    requires i < 2 && (p, bins, freq) == [(t.p1, PressureBins as nat, Absolute), (t.p2, PressureBins as nat, Relative)][i]
    ensures bins > 0
    ensures var split := |p| / 2;
      && Blocks(m, t)[17 + 2 * i] == Hist1D(m, p[..split], bins, 0.0, 0.0, freq, 3.0)
      && Blocks(m, t)[18 + 2 * i] == Hist1D(m, p[split..], bins, 0.0, 0.0, freq, 3.0)
  {
    var name := [P1, P2][i];
    var split := |p| / 2;
    Block1D(m, t, 17 + 2 * i, OneD(name, FirstHalf, PressureBins, ZeroBounds, freq, 3.0), p[..split], 0.0, 0.0);
    Block1D(m, t, 18 + 2 * i, OneD(name, SecondHalf, PressureBins, ZeroBounds, freq, 3.0), p[split..], 0.0, 0.0);
  }

  /** `process_signature(X, Y, P)`: the traces, then the histograms appended in their fixed order. */
  method ProcessSignature(m: MathOps, X: seq<real>, Y: seq<real>, P: seq<real>) returns (featureVector: seq<real>)
    ensures featureVector == Features(m, X, Y, P)
    ensures |featureVector| == FeatureLength
  {
    var t := DeriveTraces(m, X, Y, P);
    featureVector := AppendHistograms(m, t);
  }

  /** The second part of `process_signature`: the 21 histograms appended in order. */
  method AppendHistograms(m: MathOps, t: Traces) returns (featureVector: seq<real>)
    requires |t.theta1Valid| == |t.phiD2|
    ensures featureVector == Span(Blocks(m, t), 0, BlockCount)
  {
    featureVector := [];
    var section := AngleHistograms(m, t);
    featureVector := featureVector + section;
    section := SpeedHistograms(m, t);
    featureVector := featureVector + section;
    section := CoordinateHistograms(m, t);
    featureVector := featureVector + section;
    section := CoordinatePairHistograms(m, t);
    featureVector := featureVector + section;
    section := AngleSpeedHistograms(m, t);
    featureVector := featureVector + section;
    section := PressureHistograms(m, t);
    featureVector := featureVector + section;
    SpanSections(Blocks(m, t));
  }

  /** The first part of `process_signature`: derivatives, polar coordinates and the angle series. */
  method DeriveTraces(m: MathOps, X: seq<real>, Y: seq<real>, P: seq<real>) returns (t: Traces)
    ensures t == SignatureTraces(m, X, Y, P)
  {
    var xDerivs := ComputeDerivatives(X, 2);
    var yDerivs := ComputeDerivatives(Y, 2);
    var pDerivs := ComputeDerivatives(P, 2);
    var x1, x2 := Get(xDerivs, 1), Get(xDerivs, 2);
    var y1, y2 := Get(yDerivs, 1), Get(yDerivs, 2);
    var p1, p2 := Get(pDerivs, 1), Get(pDerivs, 2);

    var r1: seq<real>, theta1: seq<real> := [], [];
    if x1 != [] && y1 != [] {
      r1, theta1 := ComputePolarCoords(m, x1, y1);
    }

    var theta2Deriv := if |theta1| > 1 then Diff(theta1) else [];
    var phiD := Diff(theta1);
    var phiD2 := if |phiD| > 1 then Diff(phiD) else [];
    var theta1Valid := if |theta1| >= 2 then theta1[..|theta1| - 2] else [];
    var r2: seq<real> := [];
    if x2 != [] && y2 != [] {
      var unusedAngle;
      r2, unusedAngle := ComputePolarCoords(m, x2, y2);
    }

    t := Traces(x1, x2, y1, y2, p1, p2, r1, theta1, r2, theta2Deriv, theta1Valid, phiD2);
  }

  /** Histograms 1-3: angle and angle change over the full range (relative), angle against
      the second angle difference (absolute). */
  method AngleHistograms(m: MathOps, t: Traces) returns (section: seq<real>)
    requires |t.theta1Valid| == |t.phiD2|
    ensures section == Span(Blocks(m, t), 0, 3)
  {
    AngleAndSpeedEntries();
    var theta1, theta2Deriv, theta1Valid, phiD2 := t.theta1, t.theta2Deriv, t.theta1Valid, t.phiD2;
    ghost var blocks := Blocks(m, t);
    section := [];
    var hist := Hist1D(m, theta1, AngleBins, -m.pi, m.pi, Relative, 0.0);
    Block1D(m, t, 0, OneD(Theta1, Whole, AngleBins, AngleBounds, Relative, 0.0), theta1, -m.pi, m.pi);
    section := section + hist;
    assert section == Span(blocks, 0, 1);

    hist := Hist1D(m, theta2Deriv, AngleBins, -m.pi, m.pi, Relative, 0.0);
    Block1D(m, t, 1, OneD(Theta2Deriv, Whole, AngleBins, AngleBounds, Relative, 0.0), theta2Deriv, -m.pi, m.pi);
    section := section + hist;
    assert section == Span(blocks, 0, 2);

    hist := Hist2D(m, theta1Valid, phiD2, AngleBins, AngleBins, -m.pi, m.pi, -m.pi, m.pi, 0.0, 0.0, Absolute);
    assert theta1Valid[..|theta1Valid|] == theta1Valid && phiD2[..|phiD2|] == phiD2;
    Block2D(m, t, 2, TwoD(Theta1Valid, PhiD2, Whole, AngleBins, AngleBins, AngleBounds, AngleBounds, 0.0, 0.0, Absolute),
            theta1Valid, phiD2, -m.pi, m.pi, -m.pi, m.pi);
    section := section + hist;
  }

  /** Histograms 4-5: the speed magnitudes of the first and second derivatives (absolute, mean ± 3 std). */
  method SpeedHistograms(m: MathOps, t: Traces) returns (section: seq<real>)
    ensures section == Span(Blocks(m, t), 3, 5)
  {
    AngleAndSpeedEntries();
    var r1, r2 := t.r1, t.r2;
    ghost var blocks := Blocks(m, t);
    section := [];
    var hist := Hist1D(m, r1, SpeedBins, 0.0, 0.0, Absolute, 3.0);
    Block1D(m, t, 3, OneD(R1, Whole, SpeedBins, ZeroBounds, Absolute, 3.0), r1, 0.0, 0.0);
    section := section + hist;
    assert section == Span(blocks, 3, 4);

    hist := Hist1D(m, r2, SpeedBins, 0.0, 0.0, Absolute, 3.0);
    Block1D(m, t, 4, OneD(R2, Whole, SpeedBins, ZeroBounds, Absolute, 3.0), r2, 0.0, 0.0);
    section := section + hist;
  }

  /** Histograms 6-9: each coordinate derivative on its own (relative, mean ± 3 std). */
  method CoordinateHistograms(m: MathOps, t: Traces) returns (section: seq<real>)
    ensures section == Span(Blocks(m, t), 5, 9)
  {
    ghost var blocks := Blocks(m, t);
    section := [];
    var coordSeries := [t.x1, t.y1, t.x2, t.y2];
    for i := 0 to |coordSeries|
      invariant section == Span(blocks, 5, 5 + i)
    {
      var hist := Hist1D(m, coordSeries[i], CoordBins, 0.0, 0.0, Relative, 3.0);
      CoordStep(m, t, i, coordSeries[i]);
      section := section + hist;
    }
  }

  /** Histograms 10-11: first against second derivative of each axis, cut to a common length. */
  method CoordinatePairHistograms(m: MathOps, t: Traces) returns (section: seq<real>)
    ensures section == Span(Blocks(m, t), 9, 11)
  {
    ghost var blocks := Blocks(m, t);
    section := [];
    var coordPairs := [(t.x1, t.x2), (t.y1, t.y2)];
    for i := 0 to |coordPairs|
      invariant section == Span(blocks, 9, 9 + i)
    {
      var x, y := coordPairs[i].0, coordPairs[i].1;
      var minLen := Min(|x|, |y|);
      var xValid, yValid := x[..minLen], y[..minLen];
      var hist := Hist2D(m, xValid, yValid, CoordBins / 2, CoordBins / 2, 0.0, 0.0, 0.0, 0.0, 3.0, 3.0, Relative);
      PairStep(m, t, i, x, y);
      section := section + hist;
    }
  }

  /** Histograms 12-17: angle against speed for three pairings, cut to a common length,
      each half binned on its own. */
  method AngleSpeedHistograms(m: MathOps, t: Traces) returns (section: seq<real>)
    ensures section == Span(Blocks(m, t), 11, 17)
  {
    ghost var blocks := Blocks(m, t);
    section := [];
    var angleSpeed := [(t.theta1, t.r1), (t.theta2Deriv, t.r2), (t.theta1, t.r2)];
    for i := 0 to |angleSpeed|
      invariant section == Span(blocks, 11, 11 + 2 * i)
    {
      var angleData, speedData := angleSpeed[i].0, angleSpeed[i].1;
      AngleSpeedStep(m, t, i, angleData, speedData);
      var minLen := Min(|angleData|, |speedData|);
      angleData, speedData := angleData[..minLen], speedData[..minLen];
      var split := minLen / 2;

      var hist := Hist2D(m, angleData[..split], speedData[..split], AngleBins, SpeedBins,
                         -m.pi, m.pi, 0.0, 0.0, 0.0, 3.0, Relative);
      section := section + hist;

      hist := Hist2D(m, angleData[split..], speedData[split..], AngleBins, SpeedBins,
                     -m.pi, m.pi, 0.0, 0.0, 0.0, 3.0, Relative);
      section := section + hist;
    }
  }

  /** Histograms 18-21: each half of the first (absolute) and second (relative) pressure
      derivative; an empty derivative contributes zeros. */
  method PressureHistograms(m: MathOps, t: Traces) returns (section: seq<real>)
    ensures section == Span(Blocks(m, t), 17, 21)
  {
    ghost var blocks := Blocks(m, t);
    section := [];
    var pressure := [(t.p1, PressureBins as nat, Absolute), (t.p2, PressureBins as nat, Relative)];
    for i := 0 to |pressure|
      invariant section == Span(blocks, 17, 17 + 2 * i)
    {
      var pData, bins, freq := pressure[i].0, pressure[i].1, pressure[i].2;
      PressureStep(m, t, i, pData, bins, freq);
      if pData == [] {
        assert Zeros(bins * 2) == Zeros(bins) + Zeros(bins);
        section := section + Zeros(bins * 2);
        continue;
      }
      var split := |pData| / 2;
      var hist := Hist1D(m, pData[..split], bins, 0.0, 0.0, freq, 3.0);
      section := section + hist;
      hist := Hist1D(m, pData[split..], bins, 0.0, 0.0, freq, 3.0);
      section := section + hist;
    }
  }
}
