/** The equal-width histograms of the feature extractor (`_hist_1d` and
    `_hist_2d`): bin edges spaced evenly between a lower and an upper bound,
    every bin half-open except the last, which is closed; points outside the
    bounds dropped; counts optionally divided by the number of samples; and
    bounds optionally replaced by mean ± k·std of the data being binned. */
module Histograms {
  import opened Numerics

  datatype FreqType = Absolute | Relative

  ghost predicate Monotone(e: seq<real>) {
    forall i, j :: 0 <= i <= j < |e| ==> e[i] <= e[j]
  }

  lemma ScaleMonotone(a: real, b: real, c: real)
    requires a <= b && 0.0 <= c
    ensures a * c <= b * c
  {
    assert b * c - a * c == (b - a) * c;
  }

  lemma MulDivCancel(x: real, n: real)
    requires n != 0.0
    ensures n * (x / n) == x
  {
  }

  lemma DivNonnegative(x: real, n: real)
    requires 0.0 <= x && 0.0 < n
    ensures 0.0 <= x / n
  {
  }

  /** n points lo, lo + step, lo + 2·step, ... */
  function Grid(lo: real, step: real, n: nat): (g: seq<real>)
    ensures |g| == n
  {
    seq(n, i requires 0 <= i < n => lo + i as real * step)
  }

  lemma GridSteps(lo: real, step: real, n: nat)
    ensures forall i :: 0 <= i < n - 1 ==> Grid(lo, step, n)[i + 1] - Grid(lo, step, n)[i] == step
  {
    forall i | 0 <= i < n - 1 ensures Grid(lo, step, n)[i + 1] - Grid(lo, step, n)[i] == step {
      MulSuccReal(i as real, step);
    }
  }

  lemma GridMonotone(lo: real, step: real, n: nat)
    requires 0.0 <= step
    ensures Monotone(Grid(lo, step, n))
  {
    var g := Grid(lo, step, n);
    forall i, j | 0 <= i <= j < n ensures g[i] <= g[j] {
      ScaleMonotone(i as real, j as real, step);
    }
  }

  lemma GridEnd(lo: real, hi: real, bins: nat)
    requires bins > 0
    ensures Grid(lo, (hi - lo) / bins as real, bins + 1)[bins] == hi
  {
    MulDivCancel(hi - lo, bins as real);
  }

  /** `np.linspace(lo, hi, bins + 1)`: bins + 1 evenly spaced edges from lo to hi. */
  function Linspace(lo: real, hi: real, bins: nat): (e: seq<real>)
    requires bins > 0
    ensures |e| == bins + 1
    ensures e[0] == lo && e[bins] == hi
    ensures forall i :: 0 <= i <= bins ==> e[i] == lo + i as real * ((hi - lo) / bins as real)
    ensures forall i :: 0 <= i < bins ==> e[i + 1] - e[i] == (hi - lo) / bins as real
    ensures lo <= hi ==> Monotone(e)
  {
    var step := (hi - lo) / bins as real;
    GridEnd(lo, hi, bins);
    GridSteps(lo, step, bins + 1);
    assert lo <= hi ==> Monotone(Grid(lo, step, bins + 1)) by {
      if lo <= hi {
        DivNonnegative(hi - lo, bins as real);
        GridMonotone(lo, step, bins + 1);
      }
    }
    Grid(lo, step, bins + 1)
  }

  /** Bin i of the edges e holds v: e[i] <= v < e[i+1], or e[i] <= v <= e[i+1] for the last bin. */
  predicate InBin(e: seq<real>, v: real, i: nat) {
    i + 1 < |e| && e[i] <= v && (v < e[i + 1] || (i + 2 == |e| && v == e[i + 1]))
  }

  /** The first bin from i on whose upper edge lies above v, or the last bin. */
  function Locate(e: seq<real>, v: real, i: nat): (k: nat)
    requires i + 2 <= |e|
    ensures i <= k && k + 2 <= |e|
    decreases |e| - i
  {
    if i + 2 == |e| || v < e[i + 1] then i else Locate(e, v, i + 1)
  }

  /** The bin a single point falls into, or None when it lies outside [e[0], e[last]]. */
  function BinOf(e: seq<real>, v: real): (r: Option<nat>)
    requires |e| >= 2
    ensures r.Some? <==> e[0] <= v <= e[|e| - 1]
    ensures r.Some? ==> r.value + 1 < |e|
  {
    if v < e[0] || e[|e| - 1] < v then None else Some(Locate(e, v, 0))
  }

  lemma {:induction false} LocateInBin(e: seq<real>, v: real, i: nat)
    requires i + 2 <= |e| && e[i] <= v <= e[|e| - 1]
    ensures InBin(e, v, Locate(e, v, i))
    decreases |e| - i
  {
    if i + 2 != |e| && !(v < e[i + 1]) {
      LocateInBin(e, v, i + 1);
    }
  }

  lemma InBinUnique(e: seq<real>, v: real, i: nat, k: nat)
    requires Monotone(e) && InBin(e, v, i) && InBin(e, v, k)
    ensures i == k
  {
  }

  /** With ordered edges, the located bin is exactly the interval that holds the point. */
  lemma BinOfIsInterval(e: seq<real>, v: real, i: nat)
    requires |e| >= 2 && Monotone(e)
    ensures BinOf(e, v) == Some(i) <==> InBin(e, v, i)
  {
    if e[0] <= v <= e[|e| - 1] {
      LocateInBin(e, v, 0);
      if InBin(e, v, i) {
        InBinUnique(e, v, i, Locate(e, v, 0));
      }
    }
  }

  // ---- Counting bin indices ----

  function Bump(h: seq<nat>, k: Option<nat>): (r: seq<nat>)
    ensures |r| == |h|
  {
    if k.Some? && k.value < |h| then h[k.value := h[k.value] + 1] else h
  }

  /** The count vector of n bins for a sequence of bin indices; None and indices >= n are dropped. */
  function Tally(idx: seq<Option<nat>>, n: nat): (h: seq<nat>)
    ensures |h| == n
  {
    if idx == [] then seq(n, _ => 0) else Bump(Tally(idx[1..], n), idx[0])
  }

  function Occurrences(idx: seq<Option<nat>>, i: nat): nat {
    if idx == [] then 0 else (if idx[0] == Some(i) then 1 else 0) + Occurrences(idx[1..], i)
  }

  function Hits(idx: seq<Option<nat>>, n: nat): nat {
    if idx == [] then 0 else (if idx[0].Some? && idx[0].value < n then 1 else 0) + Hits(idx[1..], n)
  }

  lemma {:induction false} TallyAt(idx: seq<Option<nat>>, n: nat, i: nat)
    requires i < n
    ensures Tally(idx, n)[i] == Occurrences(idx, i)
  {
    if idx != [] {
      TallyAt(idx[1..], n, i);
    }
  }

  lemma {:induction false} SumNatBump(h: seq<nat>, k: nat)
    requires k < |h|
    ensures SumNat(h[k := h[k] + 1]) == SumNat(h) + 1
  {
    if k == 0 {
      assert h[k := h[k] + 1][1..] == h[1..];
    } else {
      assert h[k := h[k] + 1][1..] == h[1..][k - 1 := h[k] + 1];
      SumNatBump(h[1..], k - 1);
    }
  }

  lemma {:induction false} SumNatZeros(n: nat)
    ensures SumNat(seq(n, _ => 0)) == 0
  {
    if n > 0 {
      assert seq(n, _ => 0)[1..] == seq(n - 1, _ => 0);
      SumNatZeros(n - 1);
    }
  }

  lemma {:induction false} TallySum(idx: seq<Option<nat>>, n: nat)
    ensures SumNat(Tally(idx, n)) == Hits(idx, n)
  {
    if idx == [] {
      SumNatZeros(n);
    } else {
      TallySum(idx[1..], n);
      if idx[0].Some? && idx[0].value < n {
        SumNatBump(Tally(idx[1..], n), idx[0].value);
      }
    }
  }

  /** Counts as reals, each divided by d (d = 1 for absolute frequencies). */
  function Normalize(c: seq<nat>, d: real): (r: seq<real>)
    requires d > 0.0
    ensures |r| == |c|
    ensures forall i :: 0 <= i < |c| ==> r[i] == c[i] as real / d
  {
    if c == [] then [] else [c[0] as real / d] + Normalize(c[1..], d)
  }

  lemma DivAdd(a: real, b: real, d: real)
    requires d != 0.0
    ensures a / d + b / d == (a + b) / d
  {
  }

  lemma {:induction false} SumNormalize(c: seq<nat>, d: real)
    requires d > 0.0
    ensures Sum(Normalize(c, d)) == SumNat(c) as real / d
  {
    if c != [] {
      assert Normalize(c, d)[1..] == Normalize(c[1..], d);
      SumNormalize(c[1..], d);
      DivAdd(c[0] as real, SumNat(c[1..]) as real, d);
    }
  }

  // ---- Reference counts: what a bin holds, stated over the data ----

  function CountInRange(data: seq<real>, lo: real, hi: real): (n: nat)
    ensures n <= |data|
  {
    if data == [] then 0
    else (if lo <= data[0] <= hi then 1 else 0) + CountInRange(data[1..], lo, hi)
  }

  lemma {:induction false} CountInRangeAll(data: seq<real>, lo: real, hi: real)
    requires forall k :: 0 <= k < |data| ==> lo <= data[k] <= hi
    ensures CountInRange(data, lo, hi) == |data|
  {
    if data != [] {
      CountInRangeAll(data[1..], lo, hi);
    }
  }

  function CountInBin(e: seq<real>, data: seq<real>, i: nat): nat {
    if data == [] then 0
    else (if InBin(e, data[0], i) then 1 else 0) + CountInBin(e, data[1..], i)
  }

  function BinIndices(e: seq<real>, data: seq<real>): (idx: seq<Option<nat>>)
    requires |e| >= 2
    ensures |idx| == |data|
  {
    if data == [] then [] else [BinOf(e, data[0])] + BinIndices(e, data[1..])
  }

  lemma {:induction false} HitsOfBinIndices(e: seq<real>, data: seq<real>)
    requires |e| >= 2
    ensures Hits(BinIndices(e, data), |e| - 1) == CountInRange(data, e[0], e[|e| - 1])
  {
    if data != [] {
      assert BinIndices(e, data)[1..] == BinIndices(e, data[1..]);
      HitsOfBinIndices(e, data[1..]);
    }
  }

  lemma {:induction false} OccurrencesOfBinIndices(e: seq<real>, data: seq<real>, i: nat)
    requires |e| >= 2 && Monotone(e)
    ensures Occurrences(BinIndices(e, data), i) == CountInBin(e, data, i)
  {
    if data != [] {
      assert BinIndices(e, data)[1..] == BinIndices(e, data[1..]);
      BinOfIsInterval(e, data[0], i);
      OccurrencesOfBinIndices(e, data[1..], i);
    }
  }

  // ---- Ranges ----

  /** The bounds actually binned over: the given ones, or mean ± sigmaFactor·std when sigmaFactor > 0. */
  function EffectiveRange(m: MathOps, data: seq<real>, minVal: real, maxVal: real, sigmaFactor: real): (r: (real, real))
    requires |data| > 0
    ensures sigmaFactor > 0.0 ==> r.0 + r.1 == 2.0 * Mean(data) && r.1 - r.0 == 2.0 * sigmaFactor * Std(m, data)
    ensures sigmaFactor <= 0.0 ==> r == (minVal, maxVal)
    ensures RangeOrdered(m, minVal, maxVal, sigmaFactor) ==> r.0 <= r.1
  {
    if sigmaFactor > 0.0 then
      var mu := Mean(data);
      var sigma := Std(m, data);
      assert m.Sound() ==> 0.0 <= sigmaFactor * sigma by {
        if m.Sound() { ScaleMonotone(0.0, sigmaFactor, sigma); }
      }
      (mu - sigmaFactor * sigma, mu + sigmaFactor * sigma)
    else
      (minVal, maxVal)
  }

  /** What makes the effective lower bound at most the upper one. */
  ghost predicate RangeOrdered(m: MathOps, minVal: real, maxVal: real, sigmaFactor: real) {
    if sigmaFactor > 0.0 then m.Sound() else minVal <= maxVal
  }

  function Edges(m: MathOps, data: seq<real>, bins: nat, minVal: real, maxVal: real, sigmaFactor: real): (e: seq<real>)
    requires bins > 0 && |data| > 0
    ensures |e| == bins + 1
    ensures e[0] == EffectiveRange(m, data, minVal, maxVal, sigmaFactor).0
    ensures e[bins] == EffectiveRange(m, data, minVal, maxVal, sigmaFactor).1
    ensures RangeOrdered(m, minVal, maxVal, sigmaFactor) ==> Monotone(e)
  {
    var r := EffectiveRange(m, data, minVal, maxVal, sigmaFactor);
    Linspace(r.0, r.1, bins)
  }

  lemma RatioAtMostOne(a: nat, n: nat)
    requires a <= n
    ensures a as real / Divisor(Relative, n) <= 1.0
    ensures a == n > 0 ==> a as real / Divisor(Relative, n) == 1.0
  {
    if n > 0 {
      assert a as real / n as real <= 1.0 by {
        assert a as real <= n as real;
      }
    }
  }

  /** What the counts are divided by: |data| in relative mode, nothing (1) in absolute mode or for no data. */
  function Divisor(freq: FreqType, n: nat): (d: real)
    ensures d > 0.0
    ensures freq == Relative && n > 0 ==> d == n as real
    ensures freq == Absolute || n == 0 ==> d == 1.0
  {
    if freq == Relative && n > 0 then n as real else 1.0
  }

  // ---- 1-D ----

  /** `_hist_1d(data, bins, min_val, max_val, freq_type, sigma_factor)`. */
  function Hist1D(m: MathOps, data: seq<real>, bins: nat, minVal: real, maxVal: real,
                  freq: FreqType, sigmaFactor: real): (h: seq<real>)
    requires bins > 0
    ensures |h| == bins
    ensures data == [] ==> h == Zeros(bins)
  {
    if data == [] then Zeros(bins)
    else
      var e := Edges(m, data, bins, minVal, maxVal, sigmaFactor);
      Normalize(Tally(BinIndices(e, data), bins), Divisor(freq, |data|))
  }

  /** Each entry is the number of points in its interval, divided by |data| in relative mode. */
  lemma Hist1DBins(m: MathOps, data: seq<real>, bins: nat, minVal: real, maxVal: real,
                   freq: FreqType, sigmaFactor: real, i: nat)
    requires bins > 0 && data != [] && i < bins
    requires RangeOrdered(m, minVal, maxVal, sigmaFactor)
    ensures Hist1D(m, data, bins, minVal, maxVal, freq, sigmaFactor)[i]
         == CountInBin(Edges(m, data, bins, minVal, maxVal, sigmaFactor), data, i) as real / Divisor(freq, |data|)
  {
    var e := Edges(m, data, bins, minVal, maxVal, sigmaFactor);
    TallyAt(BinIndices(e, data), bins, i);
    OccurrencesOfBinIndices(e, data, i);
  }

  /** The entries add up to the number of points inside the effective range (over |data| in relative mode). */
  lemma Hist1DSum(m: MathOps, data: seq<real>, bins: nat, minVal: real, maxVal: real,
                  freq: FreqType, sigmaFactor: real)
    requires bins > 0 && data != []
    ensures var r := EffectiveRange(m, data, minVal, maxVal, sigmaFactor);
            Sum(Hist1D(m, data, bins, minVal, maxVal, freq, sigmaFactor))
              == CountInRange(data, r.0, r.1) as real / Divisor(freq, |data|)
  {
    var e := Edges(m, data, bins, minVal, maxVal, sigmaFactor);
    var r := EffectiveRange(m, data, minVal, maxVal, sigmaFactor);
    var idx := BinIndices(e, data);
    var c := Tally(idx, bins);
    assert Hist1D(m, data, bins, minVal, maxVal, freq, sigmaFactor) == Normalize(c, Divisor(freq, |data|));
    SumNormalize(c, Divisor(freq, |data|));
    TallySum(idx, bins);
    HitsOfBinIndices(e, data);
    assert e[0] == r.0 && e[|e| - 1] == r.1;
  }

  /** Absolute mode: whole non-negative counts, summing to at most |data|. */
  lemma Hist1DAbsolute(m: MathOps, data: seq<real>, bins: nat, minVal: real, maxVal: real, sigmaFactor: real)
    requires bins > 0
    ensures var h := Hist1D(m, data, bins, minVal, maxVal, Absolute, sigmaFactor);
            && (forall i :: 0 <= i < bins ==> 0.0 <= h[i] && h[i] == h[i].Floor as real)
            && Sum(h) <= |data| as real
  {
    var h := Hist1D(m, data, bins, minVal, maxVal, Absolute, sigmaFactor);
    if data == [] {
      SumConstant(h, 0.0);
    } else {
      var e := Edges(m, data, bins, minVal, maxVal, sigmaFactor);
      var c := Tally(BinIndices(e, data), bins);
      assert Divisor(Absolute, |data|) == 1.0;
      assert h == Normalize(c, 1.0);
      assert forall i :: 0 <= i < bins ==> h[i] == c[i] as real;
      Hist1DSum(m, data, bins, minVal, maxVal, Absolute, sigmaFactor);
    }
  }

  /** Relative mode: the entries sum to at most 1, and to exactly 1 when no point falls outside the range. */
  lemma Hist1DRelative(m: MathOps, data: seq<real>, bins: nat, minVal: real, maxVal: real, sigmaFactor: real)
    requires bins > 0
    ensures var h := Hist1D(m, data, bins, minVal, maxVal, Relative, sigmaFactor);
            && Sum(h) <= 1.0
            && (data != [] ==>
                  var r := EffectiveRange(m, data, minVal, maxVal, sigmaFactor);
                  (forall k :: 0 <= k < |data| ==> r.0 <= data[k] <= r.1) ==> Sum(h) == 1.0)
  {
    var h := Hist1D(m, data, bins, minVal, maxVal, Relative, sigmaFactor);
    if data == [] {
      SumConstant(h, 0.0);
    } else {
      var r := EffectiveRange(m, data, minVal, maxVal, sigmaFactor);
      var n := CountInRange(data, r.0, r.1);
      Hist1DSum(m, data, bins, minVal, maxVal, Relative, sigmaFactor);
      assert Sum(h) == n as real / Divisor(Relative, |data|);
      if forall k :: 0 <= k < |data| ==> r.0 <= data[k] <= r.1 {
        CountInRangeAll(data, r.0, r.1);
      }
      RatioAtMostOne(n, |data|);
    }
  }

  /** Data that repeats one value c counts entirely in each bin that holds c. */
  lemma {:induction false} CountInBinConstant(e: seq<real>, data: seq<real>, c: real, i: nat)
    requires forall k :: 0 <= k < |data| ==> data[k] == c
    ensures CountInBin(e, data, i) == if InBin(e, c, i) then |data| else 0
  {
    if data != [] {
      CountInBinConstant(e, data[1..], c, i);
    }
  }

  /** A histogram of one repeated value c puts all of it (1 in relative mode, |data|
      in absolute mode) in the bin whose interval holds c, and nothing elsewhere. */
  lemma Hist1DConstant(m: MathOps, data: seq<real>, bins: nat, minVal: real, maxVal: real,
                       freq: FreqType, sigmaFactor: real, c: real)
    requires bins > 0 && data != []
    requires RangeOrdered(m, minVal, maxVal, sigmaFactor)
    requires forall k :: 0 <= k < |data| ==> data[k] == c
    ensures var e, h := Edges(m, data, bins, minVal, maxVal, sigmaFactor), Hist1D(m, data, bins, minVal, maxVal, freq, sigmaFactor);
      forall j :: 0 <= j < bins ==>
        h[j] == if InBin(e, c, j) then (if freq == Relative then 1.0 else |data| as real) else 0.0
  {
    forall j | 0 <= j < bins {
      Hist1DConstantAt(m, data, bins, minVal, maxVal, freq, sigmaFactor, c, j);
    }
  }

  lemma Hist1DConstantAt(m: MathOps, data: seq<real>, bins: nat, minVal: real, maxVal: real,
                         freq: FreqType, sigmaFactor: real, c: real, j: nat)
    requires bins > 0 && data != [] && j < bins
    requires RangeOrdered(m, minVal, maxVal, sigmaFactor)
    requires forall k :: 0 <= k < |data| ==> data[k] == c
    ensures var e := Edges(m, data, bins, minVal, maxVal, sigmaFactor);
      Hist1D(m, data, bins, minVal, maxVal, freq, sigmaFactor)[j]
        == if InBin(e, c, j) then (if freq == Relative then 1.0 else |data| as real) else 0.0
  {
    var e := Edges(m, data, bins, minVal, maxVal, sigmaFactor);
    var cnt := CountInBin(e, data, j);
    Hist1DBins(m, data, bins, minVal, maxVal, freq, sigmaFactor, j);
    CountInBinConstant(e, data, c, j);
    WholeRatio(|data|, freq);
    assert cnt as real / Divisor(freq, |data|)
        == if InBin(e, c, j) then (if freq == Relative then 1.0 else |data| as real) else 0.0;
  }

  /** All of the data over the divisor: 1 in relative mode, |data| in absolute mode. */
  lemma WholeRatio(n: nat, freq: FreqType)
    requires n > 0
    ensures n as real / Divisor(freq, n) == if freq == Relative then 1.0 else n as real
    ensures 0.0 / Divisor(freq, n) == 0.0
  {
  }

  /** Relative mode over fixed bounds: a repeated value c in bin b gives 1 in bin b and 0 in every other bin. */
  lemma Hist1DSingleBin(m: MathOps, data: seq<real>, bins: nat, minVal: real, maxVal: real, c: real, b: nat)
    requires bins > 0 && data != [] && minVal <= maxVal
    requires forall k :: 0 <= k < |data| ==> data[k] == c
    requires InBin(Linspace(minVal, maxVal, bins), c, b)
    ensures forall j :: 0 <= j < bins ==>
      Hist1D(m, data, bins, minVal, maxVal, Relative, 0.0)[j] == if j == b then 1.0 else 0.0
  {
    var e := Linspace(minVal, maxVal, bins);
    assert e == Edges(m, data, bins, minVal, maxVal, 0.0);
    Hist1DConstant(m, data, bins, minVal, maxVal, Relative, 0.0, c);
    forall j | 0 <= j < bins && InBin(e, c, j) ensures j == b {
      InBinUnique(e, c, j, b);
    }
  }

  /** With sigmaFactor > 0 the given bounds play no part. */
  lemma Hist1DIgnoresGivenRange(m: MathOps, data: seq<real>, bins: nat, min1: real, max1: real,
                                min2: real, max2: real, freq: FreqType, sigmaFactor: real)
    requires bins > 0 && sigmaFactor > 0.0
    ensures Hist1D(m, data, bins, min1, max1, freq, sigmaFactor) == Hist1D(m, data, bins, min2, max2, freq, sigmaFactor)
  {
  }

  // ---- 2-D ----

  /** The flat, x-major cell of a point; None when either coordinate is outside its range. */
  function CellOf(ex: seq<real>, ey: seq<real>, x: real, y: real): (r: Option<nat>)
    requires |ex| >= 2 && |ey| >= 2
    ensures r.Some? <==> ex[0] <= x <= ex[|ex| - 1] && ey[0] <= y <= ey[|ey| - 1]
    ensures r.Some? ==> r.value < (|ex| - 1) * (|ey| - 1)
  {
    var xb := BinOf(ex, x);
    var yb := BinOf(ey, y);
    if xb.Some? && yb.Some? then
      CellIndexBound(xb.value, yb.value, |ex| - 1, |ey| - 1);
      Some(xb.value * (|ey| - 1) + yb.value)
    else None
  }

  function CellIndices(ex: seq<real>, ey: seq<real>, xs: seq<real>, ys: seq<real>): (idx: seq<Option<nat>>)
    requires |ex| >= 2 && |ey| >= 2 && |xs| == |ys|
    ensures |idx| == |xs|
  {
    if xs == [] then [] else [CellOf(ex, ey, xs[0], ys[0])] + CellIndices(ex, ey, xs[1..], ys[1..])
  }

  function CountInBox(xs: seq<real>, ys: seq<real>, xlo: real, xhi: real, ylo: real, yhi: real): (n: nat)
    requires |xs| == |ys|
    ensures n <= |xs|
  {
    if xs == [] then 0
    else (if xlo <= xs[0] <= xhi && ylo <= ys[0] <= yhi then 1 else 0) + CountInBox(xs[1..], ys[1..], xlo, xhi, ylo, yhi)
  }

  lemma {:induction false} CountInBoxAll(xs: seq<real>, ys: seq<real>, xlo: real, xhi: real, ylo: real, yhi: real)
    requires |xs| == |ys|
    requires forall k :: 0 <= k < |xs| ==> xlo <= xs[k] <= xhi && ylo <= ys[k] <= yhi
    ensures CountInBox(xs, ys, xlo, xhi, ylo, yhi) == |xs|
  {
    if xs != [] {
      CountInBoxAll(xs[1..], ys[1..], xlo, xhi, ylo, yhi);
    }
  }

  function CountInCell(ex: seq<real>, ey: seq<real>, xs: seq<real>, ys: seq<real>, i: nat, j: nat): nat
    requires |xs| == |ys|
  {
    if xs == [] then 0
    else (if InBin(ex, xs[0], i) && InBin(ey, ys[0], j) then 1 else 0) + CountInCell(ex, ey, xs[1..], ys[1..], i, j)
  }

  lemma MulMonotone(x: nat, y: nat, n: nat)
    requires x <= y
    ensures x * n <= y * n
  {
    var d := y - x;
    assert y * n == x * n + d * n;
  }

  lemma MulSuccInt(x: int, n: int)
    ensures (x + 1) * n == x * n + n
  {
  }

  lemma CellIndexBound(i: nat, j: nat, nx: nat, ny: nat)
    requires i < nx && j < ny
    ensures i * ny + j < nx * ny
  {
    MulSuccInt(i, ny);
    MulMonotone(i + 1, nx, ny);
  }

  /** The flat index a·ny + b with b < ny determines a and b. */
  lemma CellIndexUnique(a: nat, b: nat, i: nat, j: nat, ny: nat)
    requires b < ny && j < ny && a * ny + b == i * ny + j
    ensures a == i && b == j
  {
    if a < i {
      MulSuccInt(a, ny);
      MulMonotone(a + 1, i, ny);
    } else if i < a {
      MulSuccInt(i, ny);
      MulMonotone(i + 1, a, ny);
    }
  }

  lemma {:induction false} HitsOfCellIndices(ex: seq<real>, ey: seq<real>, xs: seq<real>, ys: seq<real>)
    requires |ex| >= 2 && |ey| >= 2 && |xs| == |ys|
    ensures Hits(CellIndices(ex, ey, xs, ys), (|ex| - 1) * (|ey| - 1))
         == CountInBox(xs, ys, ex[0], ex[|ex| - 1], ey[0], ey[|ey| - 1])
  {
    if xs != [] {
      assert CellIndices(ex, ey, xs, ys)[1..] == CellIndices(ex, ey, xs[1..], ys[1..]);
      HitsOfCellIndices(ex, ey, xs[1..], ys[1..]);
    }
  }

  /** With ordered edges, a point's flat cell is i·ny + j exactly when x lies in x-bin i and y in y-bin j. */
  lemma CellOfIsCell(ex: seq<real>, ey: seq<real>, x: real, y: real, i: nat, j: nat)
    requires |ex| >= 2 && |ey| >= 2 && Monotone(ex) && Monotone(ey) && j + 1 < |ey|
    ensures CellOf(ex, ey, x, y) == Some(i * (|ey| - 1) + j) <==> InBin(ex, x, i) && InBin(ey, y, j)
  {
    BinOfIsInterval(ex, x, i);
    BinOfIsInterval(ey, y, j);
    var xb, yb := BinOf(ex, x), BinOf(ey, y);
    if xb.Some? && yb.Some? && xb.value * (|ey| - 1) + yb.value == i * (|ey| - 1) + j {
      CellIndexUnique(xb.value, yb.value, i, j, |ey| - 1);
    }
  }

  lemma {:induction false} OccurrencesOfCellIndices(ex: seq<real>, ey: seq<real>, xs: seq<real>, ys: seq<real>, i: nat, j: nat)
    requires |ex| >= 2 && |ey| >= 2 && |xs| == |ys| && Monotone(ex) && Monotone(ey) && j + 1 < |ey|
    ensures Occurrences(CellIndices(ex, ey, xs, ys), i * (|ey| - 1) + j) == CountInCell(ex, ey, xs, ys, i, j)
  {
    if xs != [] {
      assert CellIndices(ex, ey, xs, ys)[1..] == CellIndices(ex, ey, xs[1..], ys[1..]);
      OccurrencesOfCellIndices(ex, ey, xs[1..], ys[1..], i, j);
      CellOfIsCell(ex, ey, xs[0], ys[0], i, j);
    }
  }

  /** `_hist_2d(x, y, x_bins, y_bins, x_min, x_max, y_min, y_max, x_sigma, y_sigma, freq_type)`,
      flattened x-major. Either series empty gives zeros; otherwise numpy
      refuses x and y of different lengths. */
  function Hist2D(m: MathOps, x: seq<real>, y: seq<real>, xBins: nat, yBins: nat,
                  xMin: real, xMax: real, yMin: real, yMax: real,
                  xSigma: real, ySigma: real, freq: FreqType): (h: seq<real>)
    requires (x == [] || y == [] || |x| == |y|) && xBins > 0 && yBins > 0
    ensures |h| == xBins * yBins
    ensures x == [] || y == [] ==> h == Zeros(xBins * yBins)
  {
    if x == [] || y == [] then Zeros(xBins * yBins)
    else
      var ex := Edges(m, x, xBins, xMin, xMax, xSigma);
      var ey := Edges(m, y, yBins, yMin, yMax, ySigma);
      Normalize(Tally(CellIndices(ex, ey, x, y), xBins * yBins), Divisor(freq, |x|))
  }

  /** Entry i·yBins + j counts the points whose x lies in x-bin i and whose y lies in y-bin j. */
  lemma Hist2DCell(m: MathOps, x: seq<real>, y: seq<real>, xBins: nat, yBins: nat,
                   xMin: real, xMax: real, yMin: real, yMax: real,
                   xSigma: real, ySigma: real, freq: FreqType, i: nat, j: nat)
    requires |x| == |y| && x != [] && i < xBins && j < yBins
    requires RangeOrdered(m, xMin, xMax, xSigma) && RangeOrdered(m, yMin, yMax, ySigma)
    ensures i * yBins + j < xBins * yBins
    ensures Hist2D(m, x, y, xBins, yBins, xMin, xMax, yMin, yMax, xSigma, ySigma, freq)[i * yBins + j]
         == CountInCell(Edges(m, x, xBins, xMin, xMax, xSigma), Edges(m, y, yBins, yMin, yMax, ySigma), x, y, i, j) as real
            / Divisor(freq, |x|)
  {
    CellIndexBound(i, j, xBins, yBins);
    var ex := Edges(m, x, xBins, xMin, xMax, xSigma);
    var ey := Edges(m, y, yBins, yMin, yMax, ySigma);
    var idx, cell, n := CellIndices(ex, ey, x, y), i * yBins + j, xBins * yBins;
    assert |ey| - 1 == yBins;
    assert Hist2D(m, x, y, xBins, yBins, xMin, xMax, yMin, yMax, xSigma, ySigma, freq)
        == Normalize(Tally(idx, n), Divisor(freq, |x|));
    TallyAt(idx, n, cell);
    OccurrencesOfCellIndices(ex, ey, x, y, i, j);
  }

  /** The entries add up to the number of points inside both ranges, over |x| in relative mode. */
  lemma Hist2DSum(m: MathOps, x: seq<real>, y: seq<real>, xBins: nat, yBins: nat,
                  xMin: real, xMax: real, yMin: real, yMax: real,
                  xSigma: real, ySigma: real, freq: FreqType)
    requires |x| == |y| && x != [] && xBins > 0 && yBins > 0
    ensures var rx := EffectiveRange(m, x, xMin, xMax, xSigma);
            var ry := EffectiveRange(m, y, yMin, yMax, ySigma);
            Sum(Hist2D(m, x, y, xBins, yBins, xMin, xMax, yMin, yMax, xSigma, ySigma, freq))
              == CountInBox(x, y, rx.0, rx.1, ry.0, ry.1) as real / Divisor(freq, |x|)
  {
    var ex := Edges(m, x, xBins, xMin, xMax, xSigma);
    var ey := Edges(m, y, yBins, yMin, yMax, ySigma);
    var idx := CellIndices(ex, ey, x, y);
    var n := xBins * yBins;
    assert (|ex| - 1) * (|ey| - 1) == n;
    var h := Hist2D(m, x, y, xBins, yBins, xMin, xMax, yMin, yMax, xSigma, ySigma, freq);
    assert h == Normalize(Tally(idx, n), Divisor(freq, |x|));
    SumNormalize(Tally(idx, n), Divisor(freq, |x|));
    TallySum(idx, n);
    HitsOfCellIndices(ex, ey, x, y);
    assert Hits(idx, n) == CountInBox(x, y, ex[0], ex[xBins], ey[0], ey[yBins]);
  }

  /** Relative mode: the entries sum to at most 1, including when one input is empty, and
      to exactly 1 when every point lies inside both effective ranges. */
  lemma Hist2DRelative(m: MathOps, x: seq<real>, y: seq<real>, xBins: nat, yBins: nat,
                       xMin: real, xMax: real, yMin: real, yMax: real,
                       xSigma: real, ySigma: real)
    requires (x == [] || y == [] || |x| == |y|) && xBins > 0 && yBins > 0
    ensures var h := Hist2D(m, x, y, xBins, yBins, xMin, xMax, yMin, yMax, xSigma, ySigma, Relative);
            && Sum(h) <= 1.0
            && (|x| == |y| && x != [] ==>
                  var rx := EffectiveRange(m, x, xMin, xMax, xSigma);
                  var ry := EffectiveRange(m, y, yMin, yMax, ySigma);
                  (forall k :: 0 <= k < |x| ==> rx.0 <= x[k] <= rx.1 && ry.0 <= y[k] <= ry.1) ==> Sum(h) == 1.0)
  {
    var h := Hist2D(m, x, y, xBins, yBins, xMin, xMax, yMin, yMax, xSigma, ySigma, Relative);
    if x == [] || y == [] {
      SumConstant(h, 0.0);
    } else {
      var rx := EffectiveRange(m, x, xMin, xMax, xSigma);
      var ry := EffectiveRange(m, y, yMin, yMax, ySigma);
      var n := CountInBox(x, y, rx.0, rx.1, ry.0, ry.1);
      Hist2DSum(m, x, y, xBins, yBins, xMin, xMax, yMin, yMax, xSigma, ySigma, Relative);
      if forall k :: 0 <= k < |x| ==> rx.0 <= x[k] <= rx.1 && ry.0 <= y[k] <= ry.1 {
        CountInBoxAll(x, y, rx.0, rx.1, ry.0, ry.1);
      }
      RatioAtMostOne(n, |x|);
    }
  }
}
