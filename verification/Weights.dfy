/** The exponential the softmax kernels use, without logarithms and without axioms.

    An attention score is a float32, hence an integer multiple of one smallest unit, so a score
    is an `int` here and exp(score) is `w(score)` for a function w that turns sums into
    products.  The results below hold for every such w; `Powers` shows that they are exactly the
    functions n ↦ bⁿ with b >= 1, and exp is the one with b = exp(unit). */
module Weights {

  ghost predicate AddsAt(w: int -> real, m: int, n: int) {
    w(m + n) == w(m) * w(n)
  }

  ghost predicate GrowsAt(w: int -> real, n: int) {
    0.0 < w(n) && (n <= 0 ==> w(n) <= 1.0)
  }

  ghost predicate IsWeight(w: int -> real) {
    && (forall m, n :: AddsAt(w, m, n))
    && (forall n :: GrowsAt(w, n))
  }

  type Weight = w: int -> real | IsWeight(w) witness (n: int) => 1.0

  lemma Positive(w: Weight, n: int)
    ensures w(n) > 0.0
  {
    assert GrowsAt(w, n);
  }

  lemma AtMostOne(w: Weight, n: int)
    requires n <= 0
    ensures 0.0 < w(n) <= 1.0
  {
    assert GrowsAt(w, n);
  }

  lemma IdempotentIsOne(x: real)
    requires x * x == x && x > 0.0
    ensures x == 1.0
  {}

  lemma AtZero(w: Weight)
    ensures w(0) == 1.0
  {
    assert AddsAt(w, 0, 0);
    assert 0 + 0 == 0;
    assert w(0 + 0) == w(0) * w(0);
    Positive(w, 0);
    IdempotentIsOne(w(0));
  }

  /** Moving from shift m to shift k multiplies every weight by w(m - k). */
  lemma Shift(w: Weight, s: int, m: int, k: int)
    ensures w(s - k) == w(s - m) * w(m - k)
    ensures w(s - m) > 0.0 && w(m - k) > 0.0
  {
    assert AddsAt(w, s - m, m - k);
    assert (s - m) + (m - k) == s - k;
    Positive(w, s - m);
    Positive(w, m - k);
  }

  // ---- the weights are exactly the powers ----

  type Base = b: real | b >= 1.0 witness 2.0

  function Pow(b: Base, n: int): (r: real)
    ensures r > 0.0
    decreases if n < 0 then -n else n
  {
    if n == 0 then 1.0
    else if n > 0 then b * Pow(b, n - 1)
    else Pow(b, n + 1) / b
  }

  lemma PowStep(b: Base, n: int)
    ensures Pow(b, n + 1) == b * Pow(b, n)
  {
    if n < 0 {
      assert Pow(b, n) == Pow(b, n + 1) / b;
    }
  }

  ghost predicate StepAt(b: Base, f: int -> real, n: int) {
    f(n + 1) == b * f(n)
  }

  /** f goes up by a factor b at every step and is one at zero. */
  ghost predicate Geometric(b: Base, f: int -> real) {
    f(0) == 1.0 && forall n :: StepAt(b, f, n)
  }

  lemma ScaleBoth(b: Base, x: real, y: real, p: real)
    ensures x == y * p <==> b * x == (b * y) * p
  {}

  lemma ScaleUp(b: Base, x: real)
    requires x > 0.0
    ensures x <= b * x
  {}

  lemma {:induction false} GeometricAdds(b: Base, f: int -> real, m: int, n: int)
    requires Geometric(b, f)
    ensures f(m + n) == f(m) * f(n)
    decreases if m < 0 then -m else m
  {
    if m != 0 {
      var k := if m > 0 then m - 1 else m;
      GeometricAdds(b, f, if m > 0 then m - 1 else m + 1, n);
      assert StepAt(b, f, k + n) && StepAt(b, f, k);
      assert k + n + 1 == k + 1 + n;
      ScaleBoth(b, f(k + n), f(k), f(n));
    }
  }

  lemma {:induction false} PowAtMostOne(b: Base, n: int)
    requires n <= 0
    ensures Pow(b, n) <= 1.0
    decreases -n
  {
    if n < 0 {
      PowAtMostOne(b, n + 1);
      PowStep(b, n);
      ScaleUp(b, Pow(b, n));
    }
  }

  /** Every integer power is a weight ... */
  lemma PowersAreWeights(b: Base)
    ensures IsWeight(n => Pow(b, n))
  {
    var w := n => Pow(b, n);
    forall n ensures StepAt(b, w, n) {
      PowStep(b, n);
    }
    forall m, n ensures AddsAt(w, m, n) {
      GeometricAdds(b, w, m, n);
    }
    forall n ensures GrowsAt(w, n) {
      if n <= 0 { PowAtMostOne(b, n); }
    }
  }

  lemma InverseAtLeastOne(x: real, y: real)
    requires x * y == 1.0 && x > 0.0 && y <= 1.0
    ensures x >= 1.0
  {}

  /** ... and every weight is an integer power, of its value at one. */
  lemma {:induction false} WeightsArePowers(w: Weight, n: int)
    ensures w(1) >= 1.0 && w(n) == Pow(w(1), n)
    decreases if n < 0 then -n else n
  {
    AtZero(w);
    AtMostOne(w, -1);
    assert AddsAt(w, 1, -1);
    Positive(w, 1);
    InverseAtLeastOne(w(1), w(-1));
    if n > 0 {
      WeightsArePowers(w, n - 1);
      assert AddsAt(w, 1, n - 1);
    } else if n < 0 {
      WeightsArePowers(w, n + 1);
      assert AddsAt(w, 1, n);
      PowStep(w(1), n);
      ScaleBoth(w(1), w(n), Pow(w(1), n), 1.0);
    }
  }
}
