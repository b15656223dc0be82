/** The d512 path: scores, statistics and values in three passes over a chunk, and a driver that
    merges chunk after chunk into a state held in place. */
module ChunkedAttention {
  import opened Weights
  import opened Wrappers
  import opened Softmax
  import opened SoftmaxKernels

  /** What the split path gathers for column i: below the length an invalid index reads a zero row,
      so it scores 0 and still takes part. */
  function GatherKey(indices: seq<int>, cache: seq<Key>, i: nat): Key
    requires i < |indices|
  {
    if 0 <= indices[i] < |cache| then cache[indices[i]] else Key(0, 0.0)
  }

  function SplitLanes(indices: seq<int>, lens: int, cache: seq<Key>): (lanes: seq<Lane>)
    ensures |lanes| == |indices|
    ensures forall i :: 0 <= i < |lanes| ==> lanes[i] == if i < lens then Some(GatherKey(indices, cache, i)) else None
  {
    seq(|indices|, i requires 0 <= i < |indices| => if i < lens then Some(GatherKey(indices, cache, i)) else None)
  }

  /** The three state tensors of one (token, head, dimension), updated in place. */
  class AttentionState {
    var maxScore: Ext
    var denom: real
    var acc: real

    function Value(): State
      reads this
    {
      State(maxScore, denom, acc)
    }

    constructor (st: State)
      ensures Value() == st
    {
      maxScore, denom, acc := st.max, st.denom, st.acc;
    }

    method Reset()
      modifies this
      ensures Value() == EMPTY
    {
      maxScore := Lowest;
      denom := 0.0;
      acc := 0.0;
    }

    /** Merges the accumulators; the maxima are only read, so this has to run before MergeStats. */
    method MergeAcc(w: Weight, chunk: AttentionState)
      modifies this`acc
      ensures acc == Merge(w, old(Value()), old(chunk.Value())).acc
    {
      var nextMax := MaxExt(maxScore, chunk.maxScore);
      var runningScale := if maxScore.At? then ExpDiff(w, maxScore, nextMax.s) else 0.0;
      var chunkScale := if chunk.maxScore.At? then ExpDiff(w, chunk.maxScore, nextMax.s) else 0.0;
      acc := acc * runningScale + chunk.acc * chunkScale;
    }

    method MergeStats(w: Weight, chunk: AttentionState)
      modifies this`maxScore, this`denom
      ensures maxScore == Merge(w, old(Value()), old(chunk.Value())).max
      ensures denom == Merge(w, old(Value()), old(chunk.Value())).denom
    {
      var nextMax := MaxExt(maxScore, chunk.maxScore);
      var runningScale := if maxScore.At? then ExpDiff(w, maxScore, nextMax.s) else 0.0;
      var chunkScale := if chunk.maxScore.At? then ExpDiff(w, chunk.maxScore, nextMax.s) else 0.0;
      denom := denom * runningScale + chunk.denom * chunkScale;
      maxScore := nextMax;
    }

    /** One merge of the driver: the two launches, in the order the driver issues them. */
    method MergeChunk(w: Weight, chunk: AttentionState)
      requires chunk != this
      modifies this
      ensures Value() == Merge(w, old(Value()), old(chunk.Value()))
    {
      MergeAcc(w, chunk);
      MergeStats(w, chunk);
    }
  }

  /** First pass: scores of the columns below the length, block after block; the rest of the buffer
      keeps whatever an earlier chunk left there. */
  method SplitScores(indices: seq<int>, lens: int, cache: seq<Key>, blockC: nat, scores: array<int>)
    requires blockC > 0 && |indices| <= scores.Length
    modifies scores
    ensures forall i :: 0 <= i < Min(lens, |indices|) ==> scores[i] == GatherKey(indices, cache, i).score
    ensures forall i :: Max(0, Min(lens, |indices|)) <= i < scores.Length ==> scores[i] == old(scores[i])
  {
    var eff := Min(lens, |indices|);
    var start := 0;
    while start < eff
      invariant 0 <= start
      invariant forall i :: 0 <= i < Min(start, eff) ==> scores[i] == GatherKey(indices, cache, i).score
      invariant forall i :: Max(0, eff) <= i < scores.Length ==> scores[i] == old(scores[i])
    {
      var end := Min(start + blockC, eff);
      for i := start to end
        invariant forall k :: 0 <= k < i ==> scores[k] == GatherKey(indices, cache, k).score
        invariant forall k :: Max(0, eff) <= k < scores.Length ==> scores[k] == old(scores[k])
      {
        scores[i] := GatherKey(indices, cache, i).score;
      }
      start := start + blockC;
    }
  }

  /** The lanes as the later passes see them: scores from the buffer, values gathered again. */
  function BufferLanes(scores: seq<int>, indices: seq<int>, lens: int, cache: seq<Key>): (lanes: seq<Lane>)
    requires |indices| <= |scores|
    ensures |lanes| == |indices|
  {
    seq(|indices|, i requires 0 <= i < |indices| =>
      if i < lens then Some(Key(scores[i], GatherKey(indices, cache, i).value)) else None)
  }

  /** Second pass: maximum and denominator over the columns below the length. */
  method SplitStats(w: Weight, lanes: seq<Lane>, lens: int) returns (runningMax: Ext, runningDenom: real)
    requires lens <= 0 ==> AllMasked(lanes)
    ensures runningMax == Closed(w, lanes).max && runningDenom == Closed(w, lanes).denom
  {
    runningMax := LaneMax(lanes);
    var safeMax := if lens > 0 && runningMax.At? then runningMax.s else 0;
    runningDenom := Den(w, lanes, safeMax);
    MaskedIsEmpty(w, lanes, safeMax);
  }

  /** Third pass: the accumulator, candidate block after candidate block. */
  method SplitValues(w: Weight, lanes: seq<Lane>, lens: int, maxScore: Ext, blockC: nat) returns (acc: real)
    requires blockC > 0 && maxScore == LaneMax(lanes)
    requires forall i :: 0 <= i < |lanes| ==> (lanes[i].Some? <==> i < lens)
    ensures acc == Closed(w, lanes).acc
  {
    hide Sum;
    var safeMax := if lens > 0 && maxScore.At? then maxScore.s else 0;
    acc := 0.0;
    MaskedIsEmpty(w, [], safeMax);
    var start := 0;
    assert lanes[..0] == [];
    while start < |lanes|
      invariant 0 <= start
      invariant acc == Num(w, lanes[..Min(start, |lanes|)], safeMax)
    {
      var end := Min(start + blockC, |lanes|);
      ghost var block := lanes[start..end];
      assert lanes[..end] == lanes[..start] + block;
      Concat(w, lanes[..start], block, safeMax);
      if start < Min(lens, |lanes|) {
        acc := acc + Num(w, lanes[start..end], safeMax);
      } else {
        MaskedIsEmpty(w, block, safeMax);
      }
      start := start + blockC;
    }
    assert lanes[..|lanes|] == lanes;
    MaskedIsEmpty(w, lanes, safeMax);
  }

  /** The three passes over one chunk; stale scores are never read. */
  method SplitAccumulate(w: Weight, indices: seq<int>, lens: int, cache: seq<Key>,
                         blockC: nat, scores: array<int>, out: AttentionState)
    requires blockC > 0 && |indices| <= scores.Length
    modifies scores, out
    ensures out.Value() == Closed(w, SplitLanes(indices, lens, cache))
  {
    SplitScores(indices, lens, cache, blockC, scores);
    var lanes := BufferLanes(scores[..], indices, lens, cache);
    assert lanes == SplitLanes(indices, lens, cache);
    var runningMax, runningDenom := SplitStats(w, lanes, lens);
    out.maxScore, out.denom := runningMax, runningDenom;
    var acc := SplitValues(w, lanes, lens, out.maxScore, blockC);
    out.acc := acc;
  }

  lemma MergeNext(w: Weight, all: seq<Lane>, start: nat, end: nat)
    requires start <= end <= |all|
    ensures Merge(w, Closed(w, all[..start]), Closed(w, all[start..end])) == Closed(w, all[..end])
  {
    assert all[..end] == all[..start] + all[start..end];
    MergeClosed(w, all[..start], all[start..end]);
  }

  /** The chunk driver: for every chunk size it ends in the state of one pass over the whole list. */
  method AccumulateChunked(w: Weight, indices: seq<int>, lens: int, cache: seq<Key>, blockC: nat,
                           scores: array<int>, state: AttentionState, chunk: AttentionState)
    requires blockC > 0 && scores.Length > 0 && state != chunk
    modifies scores, state, chunk
    ensures state.Value() == Closed(w, SplitLanes(indices, lens, cache))
  {
    var chunkSize := scores.Length;
    ghost var all := SplitLanes(indices, lens, cache);
    state.Reset();
    var start := 0;
    assert all[..0] == [];
    while start < |indices|
      invariant 0 <= start
      invariant state.Value() == Closed(w, all[..Min(start, |indices|)])
    {
      var end := Min(start + chunkSize, |indices|);
      var part := indices[start..end];
      var chunkLens := Min(Max(lens - start, 0), end - start);
      SplitAccumulate(w, part, chunkLens, cache, blockC, scores, chunk);
      assert SplitLanes(part, chunkLens, cache) == all[start..end];
      MergeNext(w, all, start, end);
      state.MergeChunk(w, chunk);
      start := start + chunkSize;
    }
    assert all[..|indices|] == all;
  }

  // ---- when the split path agrees with the scalar kernels ----

  /** Columns below the length whose index is a sentinel or out of range. */
  function InvalidBelow(indices: seq<int>, lens: int, cache: seq<Key>, n: nat): nat
    requires n <= |indices|
  {
    if n == 0 then 0
    else InvalidBelow(indices, lens, cache, n - 1) +
         (if n - 1 < lens && !(0 <= indices[n - 1] < |cache|) then 1 else 0)
  }

  lemma SumSnoc(f: Lane -> real, lanes: seq<Lane>, n: nat)
    requires n < |lanes|
    ensures Sum(f, lanes[..n + 1]) == Sum(f, lanes[..n]) + f(lanes[n])
  {
    assert lanes[..n + 1] == lanes[..n] + [lanes[n]];
    SumConcat(f, lanes[..n], [lanes[n]]);
    var tail: seq<Lane> := [];
    assert [lanes[n]][1..] == tail;
    assert Sum(f, tail) == 0.0;
  }

  /** Against the scalar kernels the split path adds weight exp(0) for every invalid column below
      the length, and no value. */
  lemma {:induction false} SplitSums(w: Weight, indices: seq<int>, lens: int, cache: seq<Key>, n: nat)
    requires n <= |indices|
    ensures Den(w, SplitLanes(indices, lens, cache)[..n], 0)
         == Den(w, Lanes(indices, lens, cache)[..n], 0) + InvalidBelow(indices, lens, cache, n) as real
    ensures Num(w, SplitLanes(indices, lens, cache)[..n], 0) == Num(w, Lanes(indices, lens, cache)[..n], 0)
  {
    if n > 0 {
      var split, scalar := SplitLanes(indices, lens, cache), Lanes(indices, lens, cache);
      SplitSums(w, indices, lens, cache, n - 1);
      SumSnoc(Weigh(w, 0), split, n - 1);
      SumSnoc(Weigh(w, 0), scalar, n - 1);
      SumSnoc(WeighValue(w, 0), split, n - 1);
      SumSnoc(WeighValue(w, 0), scalar, n - 1);
      AtZero(w);
    }
  }

  lemma SameStateSameSum(w: Weight, a: seq<Lane>, b: seq<Lane>)
    ensures Closed(w, a) == Closed(w, b) ==> Den(w, a, 0) == Den(w, b, 0)
  {
    AtShift(w, a, 0);
    AtShift(w, b, 0);
  }

  /** The chunked state equals the scalar one exactly when no index below the length is invalid. */
  lemma SplitAgreesIff(w: Weight, indices: seq<int>, lens: int, cache: seq<Key>)
    ensures Closed(w, SplitLanes(indices, lens, cache)) == Closed(w, Lanes(indices, lens, cache))
       <==> forall i :: 0 <= i < |indices| && i < lens ==> 0 <= indices[i] < |cache|
  {
    var split, scalar := SplitLanes(indices, lens, cache), Lanes(indices, lens, cache);
    assert split[..|indices|] == split && scalar[..|indices|] == scalar;
    SplitSums(w, indices, lens, cache, |indices|);
    SameStateSameSum(w, split, scalar);
    NoneInvalid(indices, lens, cache, |indices|);
    if forall i :: 0 <= i < |indices| && i < lens ==> 0 <= indices[i] < |cache| {
      assert split == scalar;
    }
  }

  lemma {:induction false} NoneInvalid(indices: seq<int>, lens: int, cache: seq<Key>, n: nat)
    requires n <= |indices|
    ensures InvalidBelow(indices, lens, cache, n) == 0
       <==> forall i :: 0 <= i < n && i < lens ==> 0 <= indices[i] < |cache|
  {
    if n > 0 {
      NoneInvalid(indices, lens, cache, n - 1);
    }
  }

  /** Its normalised output is the attention over the valid columns with the denominator raised by
      the number of invalid ones. */
  lemma {:induction false} SplitOutput(w: Weight, indices: seq<int>, lens: int, cache: seq<Key>)
    ensures var scalar := Lanes(indices, lens, cache);
            var den := Den(w, scalar, 0) + InvalidBelow(indices, lens, cache, |indices|) as real;
            Attention(w, SplitLanes(indices, lens, cache)) == if den == 0.0 then 0.0 else Num(w, scalar, 0) / den
  {
    var split, scalar := SplitLanes(indices, lens, cache), Lanes(indices, lens, cache);
    assert split[..|indices|] == split && scalar[..|indices|] == scalar;
    SplitSums(w, indices, lens, cache, |indices|);
  }

  /** A case where the two disagree: a single sentinel below the length. The scalar kernels leave the
      empty state, the split path counts one candidate of score 0. */
  lemma SentinelCounted(w: Weight, cache: seq<Key>)
    ensures Closed(w, Lanes([-1], 1, cache)) == EMPTY
    ensures Closed(w, SplitLanes([-1], 1, cache)) == State(At(0), 1.0, 0.0)
  {
    var split, scalar := SplitLanes([-1], 1, cache), Lanes([-1], 1, cache);
    assert split == [Some(Key(0, 0.0))];
    assert AllMasked(scalar);
    MaskedIsEmpty(w, scalar, 0);
    AtZero(w);
    SingleLane(w, Key(0, 0.0), 0, 1.0);
  }
}
