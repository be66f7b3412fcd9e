/** `Matcher.verify_signature`: the Manhattan distance between a test vector,
    quantized with a user's steps, and that user's template. */
module Matcher {
  import opened Numerics
  import opened TemplateGenerator

  function Abs(x: real): real { if x < 0.0 then -x else x }

  /** `np.sum(np.abs(a - b))` for two vectors of one length. */
  function L1(a: seq<real>, b: seq<real>): (d: real)
    requires |a| == |b|
    ensures 0.0 <= d
    ensures d == 0.0 <==> a == b
  {
    if a == [] then 0.0
    else
      assert a == [a[0]] + a[1..] && b == [b[0]] + b[1..];
      Abs(a[0] - b[0]) + L1(a[1..], b[1..])
  }

  lemma {:induction false} L1Symmetric(a: seq<real>, b: seq<real>)
    requires |a| == |b|
    ensures L1(a, b) == L1(b, a)
  {
    if a != [] {
      L1Symmetric(a[1..], b[1..]);
    }
  }

  lemma {:induction false} L1Triangle(a: seq<real>, b: seq<real>, c: seq<real>)
    requires |a| == |b| == |c|
    ensures L1(a, c) <= L1(a, b) + L1(b, c)
  {
    if a != [] {
      L1Triangle(a[1..], b[1..], c[1..]);
    }
  }

  /** The distance is the sum of the per-feature distances. */
  lemma {:induction false} L1Pointwise(a: seq<real>, b: seq<real>, i: nat)
    requires |a| == |b| && i < |a|
    ensures Abs(a[i] - b[i]) <= L1(a, b)
  {
    if i > 0 {
      L1Pointwise(a[1..], b[1..], i - 1);
    }
  }

  /** `verify_signature`: the dissimilarity score, never negative, and zero exactly
      when every quantized test feature equals the template's feature. */
  function VerifySignature(test: seq<real>, template: seq<real>, q: seq<real>): (score: real)
    requires |test| == |template| == |q|
    requires forall i :: 0 <= i < |q| ==> q[i] != 0.0
    ensures 0.0 <= score
    ensures score == 0.0 <==> forall i :: 0 <= i < |q| ==> test[i] / q[i] == template[i]
    ensures forall i :: 0 <= i < |q| ==> Abs(test[i] / q[i] - template[i]) <= score
  {
    var quantized := Quantize(test, q);
    assert quantized == template <==> forall i :: 0 <= i < |q| ==> test[i] / q[i] == template[i];
    assert forall i :: 0 <= i < |q| ==> Abs(test[i] / q[i] - template[i]) <= L1(quantized, template) by {
      forall i | 0 <= i < |q| {
        L1Pointwise(quantized, template, i);
      }
    }
    L1(quantized, template)
  }

  /** A score can differ from another test vector's score against the same
      template by at most the distance between the two quantized vectors. */
  lemma ScoreLipschitz(a: seq<real>, b: seq<real>, template: seq<real>, q: seq<real>)
    requires |a| == |b| == |template| == |q|
    requires forall i :: 0 <= i < |q| ==> q[i] != 0.0
    ensures VerifySignature(a, template, q) <= VerifySignature(b, template, q) + L1(Quantize(a, q), Quantize(b, q))
  {
    L1Triangle(Quantize(a, q), Quantize(b, q), template);
  }

  /** Scoring v against the template enrolled from identical copies of v gives 0. */
  lemma SelfMatch(m: MathOps, g: Generator, enrolled: seq<seq<real>>, v: seq<real>)
    requires |enrolled| > 0 && forall j :: 0 <= j < |enrolled| ==> enrolled[j] == v
    requires 0.0 <= g.beta && m.Sound()
    ensures IsMatrix(enrolled)
    ensures var r := g.GenerateTemplate(m, enrolled);
      |v| == |r.template| == |r.q| && VerifySignature(v, r.template, r.q) == 0.0
  {
    IdenticalEnrollment(m, g, enrolled, v);
  }
}
