/** `TemplateGenerator.generate_template`: the per-feature mean and deviation of a
    set of enrolled feature vectors, the quantization steps derived from the
    deviation, and the template, which is the mean of the quantized vectors. */
module TemplateGenerator {
  import opened Numerics

  /** The floor added to every quantization step: 0.002 for the first 100
      features and 0.8 for the rest. The threshold is a fixed index; it does not
      follow the block boundaries of the feature vector (features 0-39 are
      relative-frequency blocks, 40-439 one absolute block). */
  function Epsilon(i: nat): (e: real)
    ensures 0.002 <= e <= 0.8
    ensures e == 0.002 <==> i < 100
    ensures e == 0.8 <==> 100 <= i
  {
    if i < 100 then 0.002 else 0.8
  }

  /** A non-empty list of feature vectors that all have the first one's length,
      which is what `np.array` needs to build a matrix of them. */
  ghost predicate IsMatrix(rows: seq<seq<real>>) {
    |rows| > 0 && forall j :: 0 <= j < |rows| ==> |rows[j]| == |rows[0]|
  }

  /** Column i of the matrix: feature i of every enrollment. */
  function Column(rows: seq<seq<real>>, i: nat): (c: seq<real>)
    requires forall j :: 0 <= j < |rows| ==> i < |rows[j]|
    ensures |c| == |rows|
  {
    seq(|rows|, j requires 0 <= j < |rows| => rows[j][i])
  }

  /** The template and the quantization steps, as `generate_template` returns them. */
  datatype UserTemplate = UserTemplate(template: seq<real>, q: seq<real>)

  /** Dividing a sum by two non-zero numbers does not depend on the order. */
  lemma DivSwap(s: real, a: real, b: real)
    requires a != 0.0 && b != 0.0
    ensures s / a / b == s / b / a
  {
    assert s / a / b == s / (a * b);
    assert s / b / a == s / (b * a);
  }

  lemma ScaledNonnegative(beta: real, s: real)
    requires 0.0 <= beta && 0.0 <= s
    ensures 0.0 <= beta * s
  {
  }

  /** A template generator; `beta` scales the deviation into a step size (1.5 by default). */
  datatype Generator = Generator(beta: real)
  {
    /** `q = beta * sigma + epsilon`, one step per feature. With beta >= 0 every
        step is at least its floor, so it is positive. */
    function QuantizationSteps(m: MathOps, enrolled: seq<seq<real>>): (q: seq<real>)
      requires IsMatrix(enrolled)
      ensures |q| == |enrolled[0]|
      ensures forall i :: 0 <= i < |q| ==> q[i] == beta * Std(m, Column(enrolled, i)) + Epsilon(i)
      ensures 0.0 <= beta && m.Sound() ==> forall i :: 0 <= i < |q| ==> Epsilon(i) <= q[i]
    {
      var q := seq(|enrolled[0]|, i requires 0 <= i < |enrolled[0]| =>
                     beta * Std(m, Column(enrolled, i)) + Epsilon(i));
      assert 0.0 <= beta && m.Sound() ==> forall i :: 0 <= i < |q| ==> Epsilon(i) <= q[i] by {
        if 0.0 <= beta && m.Sound() {
          forall i | 0 <= i < |q| {
            ScaledNonnegative(beta, Std(m, Column(enrolled, i)));
          }
        }
      }
      q
    }

    /** `generate_template`: the steps, and for each feature the mean of the
        enrolled values after dividing them by that feature's step, which is the
        feature's plain mean divided by its step. */
    function GenerateTemplate(m: MathOps, enrolled: seq<seq<real>>): (r: UserTemplate)
      requires IsMatrix(enrolled)
      requires 0.0 <= beta && m.Sound()
      ensures |r.template| == |r.q| == |enrolled[0]|
      ensures r.q == QuantizationSteps(m, enrolled)
      ensures forall i :: 0 <= i < |r.q| ==> 0.0 < r.q[i]
      ensures forall i :: 0 <= i < |r.template| ==> r.template[i] == Mean(Column(enrolled, i)) / r.q[i]
    {
      var q := QuantizationSteps(m, enrolled);
      var quantized := seq(|enrolled|, j requires 0 <= j < |enrolled| => Quantize(enrolled[j], q));
      var template := seq(|q|, i requires 0 <= i < |q| => Mean(Column(quantized, i)));
      assert forall i :: 0 <= i < |template| ==> template[i] == Mean(Column(enrolled, i)) / q[i] by {
        forall i | 0 <= i < |template| {
          QuantizedColumn(enrolled, q, quantized, i);
        }
      }
      UserTemplate(template, q)
    }
  }

  /** Column i of the quantized matrix has mean (mean of column i) / q[i]. */
  lemma QuantizedColumn(enrolled: seq<seq<real>>, q: seq<real>, quantized: seq<seq<real>>, i: nat)
    requires IsMatrix(enrolled) && |q| == |enrolled[0]| && i < |q|
    requires forall k :: 0 <= k < |q| ==> 0.0 < q[k]
    requires |quantized| == |enrolled|
    requires forall j :: 0 <= j < |enrolled| ==> quantized[j] == Quantize(enrolled[j], q)
    requires forall j :: 0 <= j < |quantized| ==> |quantized[j]| == |q|
    ensures Mean(Column(quantized, i)) == Mean(Column(enrolled, i)) / q[i]
  {
    var c, cq := Column(enrolled, i), Column(quantized, i);
    assert forall j :: 0 <= j < |c| ==> cq[j] == c[j] / q[i];
    SumDivided(c, cq, q[i]);
    DivSwap(Sum(c), q[i], |c| as real);
  }

  /** An enrollment of identical copies of v: every deviation is zero, so the
      steps are exactly the floors and the template is v divided by them. */
  lemma IdenticalEnrollment(m: MathOps, g: Generator, enrolled: seq<seq<real>>, v: seq<real>)
    requires |enrolled| > 0 && forall j :: 0 <= j < |enrolled| ==> enrolled[j] == v
    requires 0.0 <= g.beta && m.Sound()
    ensures IsMatrix(enrolled)
    ensures var r := g.GenerateTemplate(m, enrolled);
      && |r.q| == |r.template| == |v|
      && (forall i :: 0 <= i < |v| ==> r.q[i] == Epsilon(i))
      && (forall i :: 0 <= i < |v| ==> r.template[i] == v[i] / Epsilon(i))
  {
    assert IsMatrix(enrolled);
    var r := g.GenerateTemplate(m, enrolled);
    forall i | 0 <= i < |v|
      ensures r.q[i] == Epsilon(i) && r.template[i] == v[i] / Epsilon(i)
    {
      var c := Column(enrolled, i);
      ConstantStatistics(m, c, v[i]);
      assert r.q[i] == g.beta * 0.0 + Epsilon(i);
    }
  }
}
