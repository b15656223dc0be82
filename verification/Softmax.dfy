/** One (token, head, value-dimension) of softmax attention in exact arithmetic: the closed form
    Σ w(sᵢ)·vᵢ / Σ w(sᵢ) that all kernels are proved against, and the algebra of its rescalings. */
module Softmax {
  import opened Weights
  import opened Wrappers

  /** A score register; Lowest is -inf, held until a candidate has been seen. */
  datatype Ext = Lowest | At(s: int)

  /** What one candidate contributes: q·k·scale, and its value. */
  datatype Key = Key(score: int, value: real)

  /** One candidate column; None is a masked column (sentinel, out of range or past `lens`). */
  type Lane = Option<Key>

  /** The running softmax state (max_score, denom, acc) of the kernels. */
  datatype State = State(max: Ext, denom: real, acc: real)

  const EMPTY := State(Lowest, 0.0, 0.0)

  function MaxExt(a: Ext, b: Ext): Ext {
    match (a, b)
    case (Lowest, _) => b
    case (_, Lowest) => a
    case (At(x), At(y)) => At(Max(x, y))
  }

  /** exp(a - m) with m finite: exp(-inf) is 0. */
  function ExpDiff(w: Weight, a: Ext, m: int): real {
    match a
    case Lowest => 0.0
    case At(s) => w(s - m)
  }

  // ---- the closed form ----

  function Score(lane: Lane): Ext {
    if lane.None? then Lowest else At(lane.value.score)
  }

  function LaneMax(lanes: seq<Lane>): Ext {
    if lanes == [] then Lowest else MaxExt(Score(lanes[0]), LaneMax(lanes[1..]))
  }

  /** Σ f(lane). */
  function Sum(f: Lane -> real, lanes: seq<Lane>): real {
    if lanes == [] then 0.0 else f(lanes[0]) + Sum(f, lanes[1..])
  }

  /** The softmax weight of a lane relative to shift m; a masked lane has none. */
  function Weigh(w: Weight, m: int): Lane -> real {
    (lane: Lane) => if lane.None? then 0.0 else w(lane.value.score - m)
  }

  function WeighValue(w: Weight, m: int): Lane -> real {
    (lane: Lane) => if lane.None? then 0.0 else w(lane.value.score - m) * lane.value.value
  }

  /** Σ w(sᵢ - m) over the unmasked lanes. */
  function Den(w: Weight, lanes: seq<Lane>, m: int): real {
    Sum(Weigh(w, m), lanes)
  }

  /** Σ w(sᵢ - m)·vᵢ over the unmasked lanes. */
  function Num(w: Weight, lanes: seq<Lane>, m: int): real {
    Sum(WeighValue(w, m), lanes)
  }

  /** The state every kernel must end in, whatever its order, tiles, chunks and restarts. */
  function Closed(w: Weight, lanes: seq<Lane>): State {
    match LaneMax(lanes)
    case Lowest => EMPTY
    case At(m) => State(At(m), Den(w, lanes, m), Num(w, lanes, m))
  }

  ghost predicate AllMasked(lanes: seq<Lane>) {
    forall i :: 0 <= i < |lanes| ==> lanes[i].None?
  }

  function Unmasked(lanes: seq<Lane>): nat {
    if lanes == [] then 0 else (if lanes[0].Some? then 1 else 0) + Unmasked(lanes[1..])
  }

  /** The sink's weight in the denominator. */
  function SinkWeight(w: Weight, sink: Ext): real {
    ExpDiff(w, sink, 0)
  }

  /** Σ w(sᵢ)·vᵢ / (Σ w(sᵢ) + w(sink)), zero when the denominator is. */
  function SinkAttention(w: Weight, lanes: seq<Lane>, sink: Ext): real {
    var den := Den(w, lanes, 0) + SinkWeight(w, sink);
    if den == 0.0 then 0.0 else Num(w, lanes, 0) / den
  }

  /** Without a sink: Σ w(sᵢ)·vᵢ / Σ w(sᵢ); zero when no lane is unmasked. */
  function Attention(w: Weight, lanes: seq<Lane>): real {
    SinkAttention(w, lanes, Lowest)
  }

  // ---- algebra ----

  lemma {:induction false} SumConcat(f: Lane -> real, a: seq<Lane>, b: seq<Lane>)
    ensures Sum(f, a + b) == Sum(f, a) + Sum(f, b)
  {
    if a == [] {
      assert a + b == b;
    } else {
      assert (a + b)[0] == a[0] && (a + b)[1..] == a[1..] + b;
      SumConcat(f, a[1..], b);
    }
  }

  lemma {:induction false} SumScale(f: Lane -> real, g: Lane -> real, c: real, lanes: seq<Lane>)
    requires forall lane :: g(lane) == f(lane) * c
    ensures Sum(g, lanes) == Sum(f, lanes) * c
  {
    if lanes != [] {
      SumScale(f, g, c, lanes[1..]);
    }
  }

  lemma {:induction false} LaneMaxConcat(a: seq<Lane>, b: seq<Lane>)
    ensures LaneMax(a + b) == MaxExt(LaneMax(a), LaneMax(b))
  {
    if a == [] {
      assert a + b == b;
    } else {
      assert (a + b)[0] == a[0] && (a + b)[1..] == a[1..] + b;
      LaneMaxConcat(a[1..], b);
    }
  }

  lemma {:induction false} Concat(w: Weight, a: seq<Lane>, b: seq<Lane>, m: int)
    ensures Den(w, a + b, m) == Den(w, a, m) + Den(w, b, m)
    ensures Num(w, a + b, m) == Num(w, a, m) + Num(w, b, m)
    ensures LaneMax(a + b) == MaxExt(LaneMax(a), LaneMax(b))
  {
    SumConcat(Weigh(w, m), a, b);
    SumConcat(WeighValue(w, m), a, b);
    LaneMaxConcat(a, b);
  }

  /** Changing the shift from m to k rescales both sums by w(m - k). */
  lemma Rescale(w: Weight, lanes: seq<Lane>, m: int, k: int)
    ensures Den(w, lanes, k) == Den(w, lanes, m) * w(m - k)
    ensures Num(w, lanes, k) == Num(w, lanes, m) * w(m - k)
  {
    hide Sum;
    forall lane: Lane
      ensures Weigh(w, k)(lane) == Weigh(w, m)(lane) * w(m - k)
      ensures WeighValue(w, k)(lane) == WeighValue(w, m)(lane) * w(m - k)
    {
      if lane.Some? {
        Shift(w, lane.value.score, m, k);
      }
    }
    SumScale(Weigh(w, m), Weigh(w, k), w(m - k), lanes);
    SumScale(WeighValue(w, m), WeighValue(w, k), w(m - k), lanes);
  }

  lemma {:induction false} MaskedIsEmpty(w: Weight, lanes: seq<Lane>, m: int)
    ensures LaneMax(lanes).Lowest? <==> AllMasked(lanes)
    ensures AllMasked(lanes) <==> Unmasked(lanes) == 0
    ensures AllMasked(lanes) ==> Den(w, lanes, m) == 0.0 && Num(w, lanes, m) == 0.0
  {
    if lanes != [] {
      MaskedIsEmpty(w, lanes[1..], m);
      assert AllMasked(lanes) <==> lanes[0].None? && AllMasked(lanes[1..]) by {
        assert forall i :: 0 <= i < |lanes| - 1 ==> lanes[1..][i] == lanes[i + 1];
        assert forall i :: 0 < i < |lanes| ==> lanes[i] == lanes[1..][i - 1];
      }
    }
  }

  /** The sums at any finite shift k, from the closed form, which holds them at the maximum. */
  lemma AtShift(w: Weight, lanes: seq<Lane>, k: int)
    ensures Den(w, lanes, k) == Closed(w, lanes).denom * ExpDiff(w, Closed(w, lanes).max, k)
    ensures Num(w, lanes, k) == Closed(w, lanes).acc * ExpDiff(w, Closed(w, lanes).max, k)
  {
    match LaneMax(lanes)
    case Lowest => MaskedIsEmpty(w, lanes, k);
    case At(m) => Rescale(w, lanes, m, k);
  }

  function MulAdd(x: real, y: real, z: real): real {
    x * y + z
  }

  /** A state carried over to the maximum k, plus the sums of a tile taken at k. */
  function Absorb(w: Weight, st: State, k: int, den: real, num: real): State {
    State(At(k), MulAdd(st.denom, ExpDiff(w, st.max, k), den), MulAdd(st.acc, ExpDiff(w, st.max, k), num))
  }

  /** Two states brought to their common maximum and added. */
  function Merge(w: Weight, a: State, b: State): State {
    match MaxExt(a.max, b.max)
    case Lowest => EMPTY
    case At(k) => Absorb(w, a, k, b.denom * ExpDiff(w, b.max, k), b.acc * ExpDiff(w, b.max, k))
  }

  lemma AbsorbAtShift(w: Weight, lanes: seq<Lane>, k: int, den: real, num: real)
    ensures Absorb(w, Closed(w, lanes), k, den, num) == State(At(k), Den(w, lanes, k) + den, Num(w, lanes, k) + num)
  {
    AtShift(w, lanes, k);
  }

  /** Extending the scanned prefix by a tile, with both sums taken at the new maximum: the update
      of every online-softmax loop, for tiles of any width. */
  lemma {:induction false} Extend(w: Weight, a: seq<Lane>, tile: seq<Lane>, k: int)
    requires MaxExt(LaneMax(a), LaneMax(tile)) == At(k)
    ensures Closed(w, a + tile) == Absorb(w, Closed(w, a), k, Den(w, tile, k), Num(w, tile, k))
  {
    Concat(w, a, tile, k);
    AbsorbAtShift(w, a, k, Den(w, tile, k), Num(w, tile, k));
  }

  /** Merging two finished states by their maxima is the closed form of the joined lanes. */
  lemma MergeClosed(w: Weight, a: seq<Lane>, b: seq<Lane>)
    ensures Closed(w, a + b) == Merge(w, Closed(w, a), Closed(w, b))
  {
    hide Sum;
    LaneMaxConcat(a, b);
    match MaxExt(LaneMax(a), LaneMax(b))
    case Lowest =>
    case At(k) =>
      Extend(w, a, b, k);
      AtShift(w, b, k);
  }

  lemma ClosedEmpty(w: Weight)
    ensures Closed(w, []) == EMPTY
  {}

  lemma {:induction false} LaneMaxBounds(lanes: seq<Lane>, i: nat)
    requires i < |lanes| && lanes[i].Some?
    ensures LaneMax(lanes).At? && lanes[i].value.score <= LaneMax(lanes).s
  {
    if i > 0 {
      assert lanes[1..][i - 1] == lanes[i];
      LaneMaxBounds(lanes[1..], i - 1);
    }
  }

  /** At a shift no smaller than the maximum the denominator is between the weight of the largest
      score and the number of unmasked lanes: nothing overflows or vanishes. */
  lemma {:induction false} DenBounds(w: Weight, lanes: seq<Lane>, m: int)
    requires LaneMax(lanes).At? ==> LaneMax(lanes).s <= m
    ensures ExpDiff(w, LaneMax(lanes), m) <= Den(w, lanes, m) <= Unmasked(lanes) as real
    ensures 0.0 <= ExpDiff(w, LaneMax(lanes), m)
  {
    if lanes != [] {
      DenBounds(w, lanes[1..], m);
      if lanes[0].Some? {
        AtMostOne(w, lanes[0].value.score - m);
      }
    }
  }

  /** Once a candidate has been seen the running denominator lies in [1, #candidates], so clamping
      it from below at 1e-30 before taking its logarithm never changes it. */
  lemma {:induction false} ClosedDenominator(w: Weight, lanes: seq<Lane>)
    ensures var st := Closed(w, lanes);
            if AllMasked(lanes) then st == EMPTY
            else st.max.At? && 1.0 <= st.denom <= Unmasked(lanes) as real
  {
    MaskedIsEmpty(w, lanes, 0);
    match LaneMax(lanes)
    case Lowest =>
    case At(m) =>
      DenBounds(w, lanes, m);
      AtZero(w);
  }

  /** Undoing the shift: denominator and accumulator, times w(max), are the plain sums. */
  lemma Unshift(w: Weight, lanes: seq<Lane>)
    ensures var st := Closed(w, lanes);
            && Den(w, lanes, 0) == st.denom * ExpDiff(w, st.max, 0)
            && Num(w, lanes, 0) == st.acc * ExpDiff(w, st.max, 0)
    ensures Den(w, lanes, 0) >= 0.0
    ensures Den(w, lanes, 0) == 0.0 <==> AllMasked(lanes)
  {
    MaskedIsEmpty(w, lanes, 0);
    AtShift(w, lanes, 0);
    ClosedDenominator(w, lanes);
    match LaneMax(lanes)
    case Lowest =>
    case At(m) =>
      Positive(w, m);
      ProductPositive(Den(w, lanes, m), w(m));
  }

  lemma ProductPositive(x: real, y: real)
    requires x > 0.0 && y > 0.0
    ensures x * y > 0.0
  {}

  /** A common positive factor cancels in a quotient. */
  lemma CancelFactor(n: real, d: real, c: real)
    requires d > 0.0 && c > 0.0
    ensures d * c > 0.0 && (n * c) / (d * c) == n / d
  {}

  /** Dividing the accumulator by the denominator is the attention output. */
  lemma Normalise(w: Weight, lanes: seq<Lane>)
    requires !AllMasked(lanes)
    ensures Closed(w, lanes).denom > 0.0
    ensures Attention(w, lanes) == Closed(w, lanes).acc / Closed(w, lanes).denom
  {
    var st := Closed(w, lanes);
    Unshift(w, lanes);
    ClosedDenominator(w, lanes);
    Positive(w, st.max.s);
    CancelFactor(st.acc, st.denom, w(st.max.s));
    assert Den(w, lanes, 0) + SinkWeight(w, Lowest) == Den(w, lanes, 0);
  }
}
