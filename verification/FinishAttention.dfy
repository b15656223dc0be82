/** Turning scan states into outputs: normalisation, the log-sum-exp a shard returns, and the
    kernels that bring in an attention sink. */
module FinishAttention {
  import opened Weights
  import opened Wrappers
  import opened Softmax
  import opened SoftmaxKernels

  type Mass = m: real | m > 0.0 witness 1.0

  /** A base-e log-sum-exp, held through its exponential: Log(mass) is the real number ln(mass). */
  datatype Lse = MinusInf | Log(mass: Mass)

  /** What one shard returns: normalised output and log-sum-exp. */
  datatype Partial = Partial(out: real, lse: Lse)

  /** The exact partial of a set of candidates. */
  function PartialOf(w: Weight, lanes: seq<Lane>): Partial {
    var den := Den(w, lanes, 0);
    if den <= 0.0 then Partial(0.0, MinusInf)
    else Partial(Attention(w, lanes), Log(den))
  }

  /** ln x <= ln y exactly when x <= y, so the larger lse is the one of larger mass. */
  function MaxLse(a: Lse, b: Lse): Lse {
    if a.MinusInf? then b
    else if b.MinusInf? then a
    else if a.mass <= b.mass then b else a
  }

  /** exp(lse): zero for -inf. */
  function MassOf(l: Lse): (r: real)
    ensures r >= 0.0 && (r == 0.0 <==> l.MinusInf?)
  {
    if l.MinusInf? then 0.0 else l.mass
  }

  /** exp(a - m) for a finite m. */
  function ExpLse(a: Lse, m: Mass): real {
    MassOf(a) * (1.0 / m)
  }

  /** The mean of two outputs under two weights and a weight that carries no value. */
  function WeightedMean(o0: real, x0: real, o1: real, x1: real, xs: real): real {
    if x0 + x1 + xs == 0.0 then 0.0 else (o0 * x0 + o1 * x1) / (x0 + x1 + xs)
  }

  lemma QuotientPositive(x: real, y: real)
    requires x > 0.0 && y > 0.0
    ensures x / y > 0.0 && (x == y ==> x / y == 1.0)
  {}

  /** A sink score as a log-sum-exp. */
  function SinkLse(w: Weight, sink: Ext): Lse {
    if sink.Lowest? then MinusInf
    else
      Positive(w, sink.s);
      Log(w(sink.s))
  }

  // ---- the straight-line kernels ----

  /** running_max + ln(denom). */
  function StateLse(w: Weight, max: Ext, denom: real): Lse
    requires denom > 0.0
  {
    if max.Lowest? then MinusInf
    else
      Positive(w, max.s);
      ProductPositive(denom, w(max.s));
      Log(denom * w(max.s))
  }

  function FinishState(w: Weight, st: State): Partial {
    var isValid := st.denom > 0.0;
    var invDenom := if isValid then 1.0 / st.denom else 0.0;
    var lse := if isValid then StateLse(w, st.max, st.denom) else MinusInf;
    Partial(st.acc * invDenom, lse)
  }

  const CLAMP := 1.0 / 1000000000000000000000000000000.0

  /** The lse of the decode wrapper, which clamps the denominator before its logarithm. */
  function WrapperLse(w: Weight, st: State): Lse {
    var clamped := if st.denom < CLAMP then CLAMP else st.denom;
    if st.denom > 0.0 then StateLse(w, st.max, clamped) else MinusInf
  }

  function FinishWithSink(w: Weight, st: State, sink: Ext): real {
    var hasTokens := st.denom > 0.0;
    var mergeMax := MaxExt(if hasTokens then st.max else Lowest, sink);
    var safeMergeMax := if mergeMax.At? then mergeMax.s else 0;
    var subsetScale := if hasTokens then ExpDiff(w, st.max, safeMergeMax) else 0.0;
    var sinkWeight := ExpDiff(w, sink, safeMergeMax);
    var total := st.denom * subsetScale + sinkWeight;
    var invTotal := if total > 0.0 then 1.0 / total else 0.0;
    (if hasTokens then st.acc else 0.0) * subsetScale * invTotal
  }

  function FinishTwoWithSink(w: Weight, st0: State, st1: State, sink: Ext): real {
    var has0, has1 := st0.denom > 0.0, st1.denom > 0.0;
    var mergeMax := MaxExt(MaxExt(if has0 then st0.max else Lowest, if has1 then st1.max else Lowest), sink);
    var safeMergeMax := if mergeMax.At? then mergeMax.s else 0;
    var scale0 := if has0 then ExpDiff(w, st0.max, safeMergeMax) else 0.0;
    var scale1 := if has1 then ExpDiff(w, st1.max, safeMergeMax) else 0.0;
    var sinkWeight := ExpDiff(w, sink, safeMergeMax);
    var total := st0.denom * scale0 + st1.denom * scale1 + sinkWeight;
    var invTotal := if total > 0.0 then 1.0 / total else 0.0;
    ((if has0 then st0.acc else 0.0) * scale0 + (if has1 then st1.acc else 0.0) * scale1) * invTotal
  }

  /** None is NaN: every operand of the maximum was -inf. */
  function MergeTwoSubsets(w: Weight, p0: Partial, p1: Partial, sink: Ext): Option<real> {
    match MaxLse(MaxLse(p0.lse, p1.lse), SinkLse(w, sink))
    case MinusInf => None
    case Log(m) =>
      Some(WeightedMean(p0.out, ExpLse(p0.lse, m), p1.out, ExpLse(p1.lse, m), ExpLse(SinkLse(w, sink), m)))
  }

  function MergeSubset(w: Weight, p: Partial, sink: Ext): Option<real> {
    match MaxLse(p.lse, SinkLse(w, sink))
    case MinusInf => None
    case Log(m) => Some(WeightedMean(p.out, ExpLse(p.lse, m), 0.0, 0.0, ExpLse(SinkLse(w, sink), m)))
  }

  // ---- correctness ----

  lemma TimesInverse(x: real, d: real)
    requires d > 0.0
    ensures x * (1.0 / d) == x / d
  {}

  /** Quotients taken at two shifts agree. */
  lemma SameQuotient(n: real, d: real, c: real, n0: real, d0: real)
    requires c > 0.0 && n0 == n * c && d0 == d * c && d0 >= 0.0
    ensures d >= 0.0 && (d == 0.0 <==> d0 == 0.0)
    ensures d != 0.0 ==> n0 / d0 == n / d
  {}

  lemma ToShiftZero(w: Weight, lanes: seq<Lane>, sink: Ext, k: int, c: real)
    requires c == w(k)
    ensures c > 0.0
    ensures Num(w, lanes, 0) == Num(w, lanes, k) * c
    ensures Den(w, lanes, 0) + SinkWeight(w, sink) == (Den(w, lanes, k) + ExpDiff(w, sink, k)) * c
    ensures Den(w, lanes, 0) + SinkWeight(w, sink) >= 0.0
    ensures Den(w, lanes, 0) + SinkWeight(w, sink) == 0.0 <==> AllMasked(lanes) && sink.Lowest?
  {
    Rescale(w, lanes, k, 0);
    Positive(w, k);
    Unshift(w, lanes);
    if sink.At? {
      Shift(w, sink.s, k, 0);
      Positive(w, sink.s);
    }
  }

  /** The sink form may be evaluated at any shift k. */
  lemma SinkAtShift(w: Weight, lanes: seq<Lane>, sink: Ext, k: int, num: real, den: real)
    requires num == Num(w, lanes, k) && den == Den(w, lanes, k) + ExpDiff(w, sink, k)
    ensures den >= 0.0
    ensures den == 0.0 <==> AllMasked(lanes) && sink.Lowest?
    ensures SinkAttention(w, lanes, sink) == if den == 0.0 then 0.0 else num / den
  {
    ToShiftZero(w, lanes, sink, k, w(k));
    SameQuotient(num, den, w(k), Num(w, lanes, 0), Den(w, lanes, 0) + SinkWeight(w, sink));
  }

  lemma PartialMeaning(w: Weight, lanes: seq<Lane>)
    ensures PartialOf(w, lanes).out == Attention(w, lanes)
    ensures PartialOf(w, lanes).lse.MinusInf? <==> AllMasked(lanes)
  {
    Unshift(w, lanes);
  }

  lemma UnshiftMass(w: Weight, lanes: seq<Lane>, st: State)
    requires st == Closed(w, lanes) && st.max.At?
    ensures Den(w, lanes, 0) == st.denom * w(st.max.s)
  {
    AtShift(w, lanes, 0);
    assert st.max.s - 0 == st.max.s;
  }

  /** Finishing a scan gives the attention output and the exact log-sum-exp; an empty scan 0 and -inf. */
  lemma FinishStateExact(w: Weight, lanes: seq<Lane>, st: State)
    requires st == Closed(w, lanes)
    ensures FinishState(w, st) == PartialOf(w, lanes)
    ensures WrapperLse(w, st) == PartialOf(w, lanes).lse
  {
    ClosedDenominator(w, lanes);
    PartialMeaning(w, lanes);
    if !AllMasked(lanes) {
      Normalise(w, lanes);
      TimesInverse(st.acc, st.denom);
      UnshiftMass(w, lanes, st);
    }
  }

  /** A state as the scans leave it: either untouched or with a maximum and a positive denominator. */
  ghost predicate Scanned(st: State) {
    if st.max.Lowest? then st == EMPTY else st.denom > 0.0
  }

  lemma FinishWithSinkQuotient(w: Weight, st: State, sink: Ext, num: real, den: real)
    requires Scanned(st)
    requires var k := if MaxExt(st.max, sink).At? then MaxExt(st.max, sink).s else 0;
             && num == st.acc * ExpDiff(w, st.max, k)
             && den == st.denom * ExpDiff(w, st.max, k) + ExpDiff(w, sink, k)
             && den >= 0.0
    ensures FinishWithSink(w, st, sink) == if den == 0.0 then 0.0 else num / den
  {}

  /** A finished state and a sink: the sink form, also when the sink or the tokens are missing. */
  lemma FinishWithSinkExact(w: Weight, lanes: seq<Lane>, sink: Ext, st: State)
    requires st == Closed(w, lanes)
    ensures FinishWithSink(w, st, sink) == SinkAttention(w, lanes, sink)
  {
    var k := if MaxExt(st.max, sink).At? then MaxExt(st.max, sink).s else 0;
    var num, den := Num(w, lanes, k), Den(w, lanes, k) + ExpDiff(w, sink, k);
    ClosedDenominator(w, lanes);
    AtShift(w, lanes, k);
    SinkAtShift(w, lanes, sink, k, num, den);
    FinishWithSinkQuotient(w, st, sink, num, den);
  }

  lemma FinishTwoQuotient(w: Weight, st0: State, st1: State, sink: Ext, num0: real, num1: real, den0: real,
                          den1: real, den: real)
    requires Scanned(st0) && Scanned(st1)
    requires var m := MaxExt(MaxExt(st0.max, st1.max), sink);
             var k := if m.At? then m.s else 0;
             && num0 == st0.acc * ExpDiff(w, st0.max, k) && den0 == st0.denom * ExpDiff(w, st0.max, k)
             && num1 == st1.acc * ExpDiff(w, st1.max, k) && den1 == st1.denom * ExpDiff(w, st1.max, k)
             && den == den0 + den1 + ExpDiff(w, sink, k)
             && den >= 0.0
    ensures FinishTwoWithSink(w, st0, st1, sink) == if den == 0.0 then 0.0 else (num0 + num1) / den
  {
    if den > 0.0 { TimesInverse(num0 + num1, den); }
  }

  lemma StateAtShift(w: Weight, lanes: seq<Lane>, k: int, st: State) returns (num: real, den: real)
    requires st == Closed(w, lanes)
    ensures Scanned(st)
    ensures num == st.acc * ExpDiff(w, st.max, k) && den == st.denom * ExpDiff(w, st.max, k)
    ensures num == Num(w, lanes, k) && den == Den(w, lanes, k)
  {
    num, den := Num(w, lanes, k), Den(w, lanes, k);
    ClosedDenominator(w, lanes);
    AtShift(w, lanes, k);
  }

  lemma JoinedSink(w: Weight, a: seq<Lane>, b: seq<Lane>, sink: Ext, k: int,
                   num0: real, num1: real, den0: real, den1: real, den: real)
    requires num0 == Num(w, a, k) && den0 == Den(w, a, k)
    requires num1 == Num(w, b, k) && den1 == Den(w, b, k)
    requires den == den0 + den1 + ExpDiff(w, sink, k)
    ensures den >= 0.0
    ensures SinkAttention(w, a + b, sink) == if den == 0.0 then 0.0 else (num0 + num1) / den
  {
    Concat(w, a, b, k);
    SinkAtShift(w, a + b, sink, k, num0 + num1, den);
  }

  /** Two states scanned over the two halves of a split candidate list, and a sink. */
  lemma FinishTwoWithSinkExact(w: Weight, a: seq<Lane>, b: seq<Lane>, sink: Ext, st0: State, st1: State)
    requires st0 == Closed(w, a) && st1 == Closed(w, b)
    ensures FinishTwoWithSink(w, st0, st1, sink) == SinkAttention(w, a + b, sink)
  {
    hide Sum, Num, Den, Closed, FinishTwoWithSink, SinkAttention, AllMasked;
    var m := MaxExt(MaxExt(st0.max, st1.max), sink);
    var k := if m.At? then m.s else 0;
    var num0, den0 := StateAtShift(w, a, k, st0);
    var num1, den1 := StateAtShift(w, b, k, st1);
    var den := den0 + den1 + ExpDiff(w, sink, k);
    JoinedSink(w, a, b, sink, k, num0, num1, den0, den1, den);
    FinishTwoQuotient(w, st0, st1, sink, num0, num1, den0, den1, den);
  }

  // ---- merging normalised partials ----

  /** An exact partial carries both sums: its mass is the denominator, output times mass the numerator. */
  lemma PartialCarries(w: Weight, lanes: seq<Lane>, p: Partial)
    requires p == PartialOf(w, lanes)
    ensures MassOf(p.lse) == Den(w, lanes, 0)
    ensures p.out * MassOf(p.lse) == Num(w, lanes, 0)
  {
    Unshift(w, lanes);
    MaskedIsEmpty(w, lanes, 0);
  }

  /** Taking all weights relative to a common maximum does not change the mean. */
  lemma RelativeMean(o0: real, l0: Lse, o1: real, l1: Lse, ls: Lse, m: Mass)
    requires MassOf(l0) + MassOf(l1) + MassOf(ls) > 0.0
    ensures WeightedMean(o0, ExpLse(l0, m), o1, ExpLse(l1, m), ExpLse(ls, m))
         == WeightedMean(o0, MassOf(l0), o1, MassOf(l1), MassOf(ls))
  {}

  lemma ScaledMean(o0: real, e0: real, o1: real, e1: real, es: real, r: real, x0: real, x1: real, xs: real)
    requires r > 0.0 && e0 + e1 + es > 0.0
    requires x0 == e0 * r && x1 == e1 * r && xs == es * r
    ensures WeightedMean(o0, x0, o1, x1, xs) == WeightedMean(o0, e0, o1, e1, es)
  {}

  lemma MergeTwoMean(w: Weight, sink: Ext, p0: Partial, p1: Partial)
    ensures var merged := MergeTwoSubsets(w, p0, p1, sink);
            && (merged.None? <==> p0.lse.MinusInf? && p1.lse.MinusInf? && sink.Lowest?)
            && (merged.Some? ==>
                  merged.value == WeightedMean(p0.out, MassOf(p0.lse), p1.out, MassOf(p1.lse), MassOf(SinkLse(w, sink))))
  {
    var ls := SinkLse(w, sink);
    var top := MaxLse(MaxLse(p0.lse, p1.lse), ls);
    if top.Log? {
      hide WeightedMean, ExpLse;
      RelativeMean(p0.out, p0.lse, p1.out, p1.lse, ls, top.mass);
    }
  }

  /** The reference is the larger of the two, so no weight taken relative to it exceeds 1. */
  lemma LargestReference(a: Lse, b: Lse)
    ensures MaxLse(a, b) == a || MaxLse(a, b) == b
    ensures MassOf(a) <= MassOf(MaxLse(a, b)) && MassOf(b) <= MassOf(MaxLse(a, b))
    ensures MaxLse(a, b).Log? ==> ExpLse(a, MaxLse(a, b).mass) <= 1.0 && ExpLse(b, MaxLse(a, b).mass) <= 1.0
  {
    if MaxLse(a, b).Log? {
      var m := MaxLse(a, b).mass;
      QuotientPositive(1.0, m);
      WeightAtMostOne(MassOf(a), m, 1.0 / m);
      WeightAtMostOne(MassOf(b), m, 1.0 / m);
    }
  }

  lemma WeightAtMostOne(x: real, m: real, r: real)
    requires 0.0 <= x <= m && m * r == 1.0 && r > 0.0
    ensures x * r <= 1.0
  {
    assert (m - x) * r >= 0.0;
  }

  /** Merging two normalised subsets with a sink, -inf partials included. */
  lemma MergeTwoSubsetsExact(w: Weight, a: seq<Lane>, b: seq<Lane>, sink: Ext, p0: Partial, p1: Partial)
    requires p0 == PartialOf(w, a) && p1 == PartialOf(w, b)
    ensures MergeTwoSubsets(w, p0, p1, sink).None? <==> AllMasked(a + b) && sink.Lowest?
    ensures MergeTwoSubsets(w, p0, p1, sink).Some? ==>
            MergeTwoSubsets(w, p0, p1, sink).value == SinkAttention(w, a + b, sink)
  {
    hide Sum, WeightedMean, MergeTwoSubsets;
    SinkIsMass(w, sink);
    MaskedJoin(w, a, b, p0, p1);
    MergeTwoMean(w, sink, p0, p1);
    MeanIsQuotient(p0.out, MassOf(p0.lse), p1.out, MassOf(p1.lse), MassOf(SinkLse(w, sink)),
                   Num(w, a + b, 0), Den(w, a + b, 0) + SinkWeight(w, sink));
  }

  lemma MeanIsQuotient(o0: real, e0: real, o1: real, e1: real, es: real, num: real, den: real)
    requires num == o0 * e0 + o1 * e1 && den == e0 + e1 + es
    ensures WeightedMean(o0, e0, o1, e1, es) == if den == 0.0 then 0.0 else num / den
  {}

  lemma SinkIsMass(w: Weight, sink: Ext)
    ensures MassOf(SinkLse(w, sink)) == SinkWeight(w, sink)
  {}

  /** Joining two candidate lists adds what their partials carry. */
  lemma MaskedJoin(w: Weight, a: seq<Lane>, b: seq<Lane>, p0: Partial, p1: Partial)
    requires p0 == PartialOf(w, a) && p1 == PartialOf(w, b)
    ensures AllMasked(a + b) <==> p0.lse.MinusInf? && p1.lse.MinusInf?
    ensures Den(w, a + b, 0) == MassOf(p0.lse) + MassOf(p1.lse)
    ensures Num(w, a + b, 0) == p0.out * MassOf(p0.lse) + p1.out * MassOf(p1.lse)
  {
    hide Sum;
    PartialCarries(w, a, p0);
    PartialCarries(w, b, p1);
    PartialMeaning(w, a);
    PartialMeaning(w, b);
    Concat(w, a, b, 0);
    MaskedIsEmpty(w, a, 0);
    MaskedIsEmpty(w, b, 0);
    MaskedIsEmpty(w, a + b, 0);
  }

  lemma MergeSubsetMean(w: Weight, sink: Ext, p: Partial)
    ensures var merged := MergeSubset(w, p, sink);
            && (merged.None? <==> p.lse.MinusInf? && sink.Lowest?)
            && (merged.Some? ==> merged.value == WeightedMean(p.out, MassOf(p.lse), 0.0, 0.0, MassOf(SinkLse(w, sink))))
  {}

  /** One subset and a sink. */
  lemma MergeSubsetExact(w: Weight, a: seq<Lane>, sink: Ext, p: Partial)
    requires p == PartialOf(w, a)
    ensures MergeSubset(w, p, sink).None? <==> AllMasked(a) && sink.Lowest?
    ensures MergeSubset(w, p, sink).Some? ==> MergeSubset(w, p, sink).value == SinkAttention(w, a, sink)
  {
    hide Sum;
    PartialCarries(w, a, p);
    PartialMeaning(w, a);
    SinkIsMass(w, sink);
    MergeSubsetMean(w, sink, p);
  }
}
