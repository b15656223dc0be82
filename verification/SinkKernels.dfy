/** The kernels that scan scores and bring in the sink in the same pass over the candidates. */
module SinkKernels {
  import opened Weights
  import opened Wrappers
  import opened Softmax
  import opened SoftmaxKernels
  import opened FinishAttention

  /** The sink as a candidate of value zero. */
  function SinkLane(sink: Ext): Lane {
    if sink.At? then Some(Key(sink.s, 0.0)) else None
  }

  lemma {:induction false} SinkLaneSums(w: Weight, lanes: seq<Lane>, sink: Ext, k: int)
    ensures Den(w, [SinkLane(sink)] + lanes, k) == ExpDiff(w, sink, k) + Den(w, lanes, k)
    ensures Num(w, [SinkLane(sink)] + lanes, k) == Num(w, lanes, k)
    ensures LaneMax([SinkLane(sink)] + lanes) == MaxExt(sink, LaneMax(lanes))
  {}

  /** The state of a recurrence started at (sink, 1, 0). A missing sink leaves the spurious
      denominator 1 in place until the first candidate erases it. */
  ghost function StartState(w: Weight, lanes: seq<Lane>, sink: Ext): State {
    if sink.Lowest? && AllMasked(lanes) then State(Lowest, 1.0, 0.0)
    else Closed(w, [SinkLane(sink)] + lanes)
  }

  lemma StartInitial(w: Weight, sink: Ext)
    ensures StartState(w, [], sink) == State(sink, 1.0, 0.0)
  {
    if sink.At? {
      SinkLaneSums(w, [], sink, sink.s);
      AtZero(w);
    }
  }

  lemma StartStep(w: Weight, lanes: seq<Lane>, sink: Ext, key: Key, st: State, k: int, den: real, num: real)
    requires st == StartState(w, lanes, sink)
    requires MaxExt(st.max, At(key.score)) == At(k)
    requires den == w(key.score - k) && num == key.value * den
    ensures Absorb(w, st, k, den, num) == StartState(w, lanes + [Some(key)], sink)
  {
    var seen := [SinkLane(sink)] + lanes;
    assert [SinkLane(sink)] + (lanes + [Some(key)]) == seen + [Some(key)];
    assert (lanes + [Some(key)])[|lanes|].Some?;
    if sink.Lowest? && AllMasked(lanes) {
      SinkLaneSums(w, lanes, sink, k);
      MaskedIsEmpty(w, lanes, k);
      StepUpdate(w, seen, key, EMPTY, k, den, num);
    } else {
      StepUpdate(w, seen, key, st, k, den, num);
    }
  }

  lemma StartSkip(w: Weight, lanes: seq<Lane>, sink: Ext)
    ensures StartState(w, lanes + [None], sink) == StartState(w, lanes, sink)
  {
    var more: seq<Lane> := lanes + [None];
    assert AllMasked(more) <==> AllMasked(lanes) by {
      assert more[|lanes|].None?;
      assert forall i :: 0 <= i < |lanes| ==> more[i] == lanes[i];
    }
    assert [SinkLane(sink)] + more == [SinkLane(sink)] + lanes + [None];
    SkipMasked(w, [SinkLane(sink)] + lanes);
  }

  lemma StartQuotient(w: Weight, lanes: seq<Lane>, sink: Ext, st: State)
    requires st == StartState(w, lanes, sink)
    ensures st.denom > 0.0 && st.acc / st.denom == SinkAttention(w, lanes, sink)
  {
    if sink.Lowest? && AllMasked(lanes) {
      MaskedIsEmpty(w, lanes, 0);
    } else {
      SinkLaneSums(w, lanes, sink, 0);
      MaskedIsEmpty(w, lanes, 0);
      MaskedIsEmpty(w, [SinkLane(sink)] + lanes, 0);
      Normalise(w, [SinkLane(sink)] + lanes);
      Unshift(w, [SinkLane(sink)] + lanes);
    }
  }

  /** The one-pass kernel: starts at (sink, 1, 0), skips masked candidates, divides at the end. */
  method FinishScores(w: Weight, lanes: seq<Lane>, sink: Ext) returns (out: real)
    ensures out == SinkAttention(w, lanes, sink)
  {
    hide Sum, StartState, MulAdd;
    var runningMax, runningDenom, runningAcc := sink, 1.0, 0.0;
    assert lanes[..0] == [];
    StartInitial(w, sink);
    for c := 0 to |lanes|
      invariant State(runningMax, runningDenom, runningAcc) == StartState(w, lanes[..c], sink)
    {
      assert lanes[..c + 1] == lanes[..c] + [lanes[c]];
      if lanes[c].Some? {
        ghost var st0 := State(runningMax, runningDenom, runningAcc);
        var kv := lanes[c].value;
        var nextMax := MaxExt(runningMax, At(kv.score));
        var previousWeight := ExpDiff(w, runningMax, nextMax.s);
        var candidateWeight := w(kv.score - nextMax.s);
        StartStep(w, lanes[..c], sink, kv, st0, nextMax.s, candidateWeight, kv.value * candidateWeight);
        runningAcc := MulAdd(runningAcc, previousWeight, kv.value * candidateWeight);
        runningDenom := MulAdd(runningDenom, previousWeight, candidateWeight);
        runningMax := nextMax;
      } else {
        StartSkip(w, lanes[..c], sink);
      }
    }
    assert lanes[..|lanes|] == lanes;
    StartQuotient(w, lanes, sink, State(runningMax, runningDenom, runningAcc));
    out := runningAcc / runningDenom;
  }

  lemma BlockSums(w: Weight, lanes: seq<Lane>, start: nat, end: nat, k: int)
    requires start <= end <= |lanes|
    ensures LaneMax(lanes[..end]) == MaxExt(LaneMax(lanes[..start]), LaneMax(lanes[start..end]))
    ensures Den(w, lanes[..end], k) == Den(w, lanes[..start], k) + Den(w, lanes[start..end], k)
    ensures Num(w, lanes[..end], k) == Num(w, lanes[..start], k) + Num(w, lanes[start..end], k)
  {
    assert lanes[..end] == lanes[..start] + lanes[start..end];
    Concat(w, lanes[..start], lanes[start..end], k);
  }

  /** The two-pass kernel: the maximum over candidate blocks first, then the sums at that maximum.
      None is NaN: with neither sink nor candidate the exponents are -inf - (-inf). */
  method FinishScoresTwoPass(w: Weight, lanes: seq<Lane>, sink: Ext, blockK: nat) returns (out: Option<real>)
    requires blockK > 0
    ensures out == if AllMasked(lanes) && sink.Lowest? then None else Some(SinkAttention(w, lanes, sink))
  {
    hide Sum;
    var maxScore := sink;
    var start := 0;
    assert lanes[..0] == [];
    while start < |lanes|
      invariant 0 <= start
      invariant maxScore == MaxExt(sink, LaneMax(lanes[..Min(start, |lanes|)]))
    {
      var end := Min(start + blockK, |lanes|);
      BlockSums(w, lanes, start, end, 0);
      maxScore := MaxExt(maxScore, LaneMax(lanes[start..end]));
      start := start + blockK;
    }
    assert lanes[..|lanes|] == lanes;
    MaskedIsEmpty(w, lanes, 0);
    if maxScore.Lowest? {
      return None;
    }
    var denom, acc := ExpDiff(w, sink, maxScore.s), 0.0;
    MaskedIsEmpty(w, lanes[..0], maxScore.s);
    start := 0;
    while start < |lanes|
      invariant 0 <= start
      invariant denom == ExpDiff(w, sink, maxScore.s) + Den(w, lanes[..Min(start, |lanes|)], maxScore.s)
      invariant acc == Num(w, lanes[..Min(start, |lanes|)], maxScore.s)
    {
      var end := Min(start + blockK, |lanes|);
      BlockSums(w, lanes, start, end, maxScore.s);
      denom := denom + Den(w, lanes[start..end], maxScore.s);
      acc := acc + Num(w, lanes[start..end], maxScore.s);
      start := start + blockK;
    }
    SinkAtShift(w, lanes, sink, maxScore.s, acc, denom);
    out := Some(acc / denom);
  }
}
