/** Exact-real stand-ins for the numeric library calls of the signature
    pipeline: sums, `np.mean`, population variance (inside `np.std`), elementwise
    division, and the transcendental calls, which are taken as parameters. */
module Numerics {

  datatype Option<T> = None | Some(value: T)

  /** `math.hypot`, `math.atan2`, the square root inside `np.std`, and `np.pi`.
      The model never looks inside them; `Sound()` is all it assumes. */
  datatype MathOps = MathOps(hypot: (real, real) -> real, atan2: (real, real) -> real,
                             sqrt: real -> real, pi: real)
  {
    ghost predicate Sound() {
      && pi > 0.0
      && sqrt(0.0) == 0.0
      && (forall x :: 0.0 <= x ==> 0.0 <= sqrt(x))
      && (forall x, y :: 0.0 <= hypot(x, y))
      && (forall x, y :: -pi < atan2(y, x) <= pi)
    }
  }

  /** The ranges `Sound()` promises, for one pair of arguments. */
  lemma PolarRange(m: MathOps, x: real, y: real)
    ensures m.Sound() ==> 0.0 <= m.hypot(x, y) && -m.pi < m.atan2(y, x) <= m.pi
  {
  }

  function Min(a: int, b: int): int { if a <= b then a else b }

  function Zeros(n: nat): (z: seq<real>)
    ensures |z| == n && forall i :: 0 <= i < n ==> z[i] == 0.0
  {
    seq(n, _ => 0.0)
  }

  function Sum(s: seq<real>): real {
    if s == [] then 0.0 else s[0] + Sum(s[1..])
  }

  function SumNat(s: seq<nat>): nat {
    if s == [] then 0 else s[0] + SumNat(s[1..])
  }

  lemma {:induction false} SumAppend(a: seq<real>, b: seq<real>)
    ensures Sum(a + b) == Sum(a) + Sum(b)
  {
    if a == [] {
      assert a + b == b;
    } else {
      assert (a + b)[1..] == a[1..] + b;
      SumAppend(a[1..], b);
    }
  }

  /** A sum of non-negative terms is non-negative, and zero exactly when every term is. */
  lemma {:induction false} SumNonnegative(s: seq<real>)
    requires forall i :: 0 <= i < |s| ==> 0.0 <= s[i]
    ensures 0.0 <= Sum(s)
    ensures Sum(s) == 0.0 <==> forall i :: 0 <= i < |s| ==> s[i] == 0.0
  {
    if s != [] {
      SumNonnegative(s[1..]);
      assert forall i :: 1 <= i < |s| ==> s[i] == s[1..][i - 1];
    }
  }

  /** n copies of c sum to n·c. */
  lemma {:induction false} SumConstant(s: seq<real>, c: real)
    requires forall i :: 0 <= i < |s| ==> s[i] == c
    ensures Sum(s) == |s| as real * c
  {
    if s != [] {
      SumConstant(s[1..], c);
    }
  }

  /** Dividing every term by d divides the sum by d. */
  lemma {:induction false} SumDivided(s: seq<real>, t: seq<real>, d: real)
    requires d != 0.0 && |s| == |t|
    requires forall i :: 0 <= i < |s| ==> t[i] == s[i] / d
    ensures Sum(t) == Sum(s) / d
  {
    if s != [] {
      SumDivided(s[1..], t[1..], d);
    }
  }

  /** The smallest element of a non-empty sequence. */
  function Smallest(s: seq<real>): (r: real)
    requires |s| > 0
    ensures forall i :: 0 <= i < |s| ==> r <= s[i]
    ensures exists i :: 0 <= i < |s| && s[i] == r
  {
    if |s| == 1 then s[0]
    else
      var rest := Smallest(s[1..]);
      assert forall i :: 1 <= i < |s| ==> s[i] == s[1..][i - 1];
      if s[0] <= rest then s[0] else rest
  }

  /** The largest element of a non-empty sequence. */
  function Largest(s: seq<real>): (r: real)
    requires |s| > 0
    ensures forall i :: 0 <= i < |s| ==> s[i] <= r
    ensures exists i :: 0 <= i < |s| && s[i] == r
  {
    if |s| == 1 then s[0]
    else
      var rest := Largest(s[1..]);
      assert forall i :: 1 <= i < |s| ==> s[i] == s[1..][i - 1];
      if rest <= s[0] then s[0] else rest
  }

  /** n terms between lo and hi sum to between n·lo and n·hi. */
  lemma {:induction false} SumBetween(s: seq<real>, lo: real, hi: real)
    requires forall i :: 0 <= i < |s| ==> lo <= s[i] <= hi
    ensures |s| as real * lo <= Sum(s) <= |s| as real * hi
  {
    if s != [] {
      SumBetween(s[1..], lo, hi);
      MulSuccReal((|s| - 1) as real, lo);
      MulSuccReal((|s| - 1) as real, hi);
    }
  }

  lemma MulSuccReal(x: real, c: real)
    ensures (x + 1.0) * c == x * c + c
  {
  }

  lemma DivBetween(x: real, n: real, lo: real, hi: real)
    requires 0.0 < n && n * lo <= x <= n * hi
    ensures lo <= x / n <= hi
  {
    assert x / n - lo == (x - n * lo) / n;
    assert hi - x / n == (n * hi - x) / n;
  }

  /** `np.mean` of a non-empty sequence. */
  function Mean(s: seq<real>): real
    requires |s| > 0
  {
    Sum(s) / |s| as real
  }

  /** Data within [lo, hi] has its mean within [lo, hi]. */
  lemma MeanBounded(s: seq<real>, lo: real, hi: real)
    requires |s| > 0 && forall i :: 0 <= i < |s| ==> lo <= s[i] <= hi
    ensures lo <= Mean(s) <= hi
  {
    SumBetween(s, lo, hi);
    DivBetween(Sum(s), |s| as real, lo, hi);
  }

  /** The mean lies between the smallest and the largest element. */
  lemma MeanBetween(s: seq<real>)
    requires |s| > 0
    ensures Smallest(s) <= Mean(s) <= Largest(s)
  {
    MeanBounded(s, Smallest(s), Largest(s));
  }

  function SquaredDeviations(s: seq<real>, c: real): (t: seq<real>)
    ensures |t| == |s|
    ensures forall i :: 0 <= i < |s| ==> 0.0 <= t[i]
  {
    var t := seq(|s|, i requires 0 <= i < |s| => (s[i] - c) * (s[i] - c));
    assert forall i :: 0 <= i < |s| ==> 0.0 <= t[i] by {
      forall i | 0 <= i < |s| { SquareNonnegative(s[i] - c); }
    }
    t
  }

  lemma SquareNonnegative(x: real)
    ensures 0.0 <= x * x
  {
    if x < 0.0 {
      assert x * x == (-x) * (-x);
    }
  }

  /** Population variance (numpy's default `ddof=0`). */
  function Variance(s: seq<real>): (v: real)
    requires |s| > 0
    ensures 0.0 <= v
  {
    var t := SquaredDeviations(s, Mean(s));
    SumNonnegative(t);
    Sum(t) / |s| as real
  }

  /** `np.std`: the square root of the population variance. */
  function Std(m: MathOps, s: seq<real>): (sd: real)
    requires |s| > 0
    ensures m.Sound() ==> 0.0 <= sd
  {
    m.sqrt(Variance(s))
  }

  /** Constant data has that constant as mean, zero variance and zero deviation. */
  lemma ConstantStatistics(m: MathOps, s: seq<real>, c: real)
    requires |s| > 0 && forall i :: 0 <= i < |s| ==> s[i] == c
    ensures Mean(s) == c
    ensures Variance(s) == 0.0
    ensures m.Sound() ==> Std(m, s) == 0.0
  {
    SumConstant(s, c);
    var t := SquaredDeviations(s, Mean(s));
    SumConstant(t, 0.0);
  }

  /** Elementwise `v / q`, as numpy divides two arrays of one shape. */
  function Quantize(v: seq<real>, q: seq<real>): (r: seq<real>)
    requires |v| == |q| && forall i :: 0 <= i < |q| ==> q[i] != 0.0
    ensures |r| == |v|
  {
    seq(|v|, i requires 0 <= i < |v| => v[i] / q[i])
  }
}
