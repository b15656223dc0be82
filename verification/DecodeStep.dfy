/** One decode step over a KV cache sharded N ways, and the same step unsharded. */
module DecodeStep {
  import opened Weights
  import opened Wrappers
  import opened Ownership
  import opened Softmax
  import opened SoftmaxKernels
  import opened FinishAttention
  import opened Recombine
  import TK = StrictTopK
  import CandidateUnion
  import Reassembly
  import opened TopKScores
  import AnyTies

  /** Rank r's shard of the cache: local row c holds global row c·N + r. */
  function ShardCache(keys: seq<Key>, N: nat, r: nat): (shard: seq<Key>)
    requires r < N
    ensures |shard| == Own(|keys|, r, N)
    ensures forall c :: 0 <= c < |shard| ==> GlobalOf(c, r, N) < |keys| && shard[c] == keys[GlobalOf(c, r, N)]
  {
    CandidateUnion.StridedInRange(|keys|, N, r);
    var n := Own(|keys|, r, N);
    seq(n, c requires 0 <= c < n => keys[GlobalOf(c, r, N)])
  }

  /** The candidates attended to, in selection order. */
  ghost function Chosen(top: seq<TK.Cand>, keys: seq<Key>): (lanes: seq<Lane>)
    requires forall c :: c in top ==> 0 <= c.pos < |keys|
    ensures |lanes| == |top|
    ensures forall i :: 0 <= i < |top| ==> lanes[i] == Some(keys[top[i].pos])
  {
    seq(|top|, i requires 0 <= i < |top| => Some(keys[top[i].pos]))
  }

  /** The attention kernel's output and lse of one shard, without a sink. */
  method AttendShard(w: Weight, rows: seq<int>, cache: seq<Key>, blockN: nat) returns (p: Partial)
    requires blockN > 0
    ensures p == PartialOf(w, Lanes(rows, |rows|, cache))
  {
    var st := FusedAttend(w, rows, |rows|, cache, blockN);
    ghost var lanes := Lanes(rows, |rows|, cache);
    var lse := WrapperLse(w, st);
    var out := FinishWithSink(w, st, Lowest);
    FinishStateExact(w, lanes, st);
    FinishWithSinkExact(w, lanes, Lowest, st);
    PartialMeaning(w, lanes);
    p := Partial(out, lse);
  }

  // ---- what the shards see together ----

  /** Slots of the selection owned by ranks from n on; the others masked. */
  ghost function OwnedFrom(gsel: seq<int>, keys: seq<Key>, N: nat, n: nat): (lanes: seq<Lane>)
    requires N > 0
    ensures |lanes| == |gsel|
    ensures forall j :: 0 <= j < |gsel| ==>
              lanes[j] == if 0 <= gsel[j] < |keys| && gsel[j] % N >= n then Some(keys[gsel[j]]) else None
  {
    seq(|gsel|, j requires 0 <= j < |gsel| =>
      if 0 <= gsel[j] < |keys| && gsel[j] % N >= n then Some(keys[gsel[j]]) else None)
  }

  /** The lanes rank r scans. */
  ghost function ShardLanes(gsel: seq<int>, keys: seq<Key>, N: nat, r: nat): (lanes: seq<Lane>)
    requires r < N
    ensures |lanes| == |gsel|
  {
    Lanes(Reassembly.OwnedWriteback(gsel, N, r), |gsel|, ShardCache(keys, N, r))
  }

  /** Rank r scans exactly the selected slots it owns, each at its own global key. */
  lemma ShardLane(gsel: seq<int>, keys: seq<Key>, N: nat, r: nat, j: nat)
    requires r < N && j < |gsel| && gsel[j] < |keys|
    ensures ShardLanes(gsel, keys, N, r)[j] == if 0 <= gsel[j] && gsel[j] % N == r then Some(keys[gsel[j]]) else None
  {
    var wb := Reassembly.OwnedWriteback(gsel, N, r);
    Reassembly.WritebackSlot(gsel, N, r, j);
    if wb[j] >= 0 {
      OwnIff(|keys|, r, N, wb[j]);
    }
  }

  lemma {:induction false} SumPointwise(f: Lane -> real, a: seq<Lane>, b: seq<Lane>, c: seq<Lane>)
    requires |a| == |b| == |c|
    requires forall j :: 0 <= j < |a| ==> f(c[j]) == f(a[j]) + f(b[j])
    ensures Sum(f, c) == Sum(f, a) + Sum(f, b)
  {
    if c != [] {
      SumPointwise(f, a[1..], b[1..], c[1..]);
    }
  }

  ghost function AllShards(gsel: seq<int>, keys: seq<Key>, N: nat): (shards: seq<seq<Lane>>)
    requires N > 0
    ensures |shards| == N && forall r :: 0 <= r < N ==> shards[r] == ShardLanes(gsel, keys, N, r)
  {
    seq(N, r requires 0 <= r < N => ShardLanes(gsel, keys, N, r))
  }

  /** Summed over the shards from rank n on, any quantity a masked lane does not contribute to is
      that of the slots they own: no selected slot is seen twice or missed. */
  lemma {:induction false} ShardsSum(f: Lane -> real, gsel: seq<int>, keys: seq<Key>, N: nat, n: nat)
    requires 0 < N && n <= N && f(None) == 0.0
    requires forall j :: 0 <= j < |gsel| ==> gsel[j] < |keys|
    ensures Sum(f, Join(AllShards(gsel, keys, N)[n..])) == Sum(f, OwnedFrom(gsel, keys, N, n))
    decreases N - n
  {
    var shards := AllShards(gsel, keys, N)[n..];
    var owned := OwnedFrom(gsel, keys, N, n);
    if n == N {
      SumZero(f, owned);
    } else {
      var rest := OwnedFrom(gsel, keys, N, n + 1);
      assert shards[1..] == AllShards(gsel, keys, N)[n + 1..];
      ShardsSum(f, gsel, keys, N, n + 1);
      SumConcat(f, shards[0], Join(shards[1..]));
      forall j | 0 <= j < |gsel|
        ensures f(owned[j]) == f(shards[0][j]) + f(rest[j])
      {
        ShardLane(gsel, keys, N, n, j);
      }
      SumPointwise(f, shards[0], rest, owned);
    }
  }

  lemma {:induction false} SumZero(f: Lane -> real, lanes: seq<Lane>)
    requires forall j :: 0 <= j < |lanes| ==> f(lanes[j]) == 0.0
    ensures Sum(f, lanes) == 0.0
  {
    if lanes != [] {
      SumZero(f, lanes[1..]);
    }
  }

  /** The lanes of the whole selection are those of the chosen candidates, then masked padding. */
  lemma SelectionLanes(w: Weight, top: seq<TK.Cand>, K: nat, keys: seq<Key>)
    requires |top| <= K && forall c :: c in top ==> 0 <= c.pos < |keys|
    ensures var lanes := Lanes(TK.PosRow(top, K), K, keys);
            && Den(w, lanes, 0) == Den(w, Chosen(top, keys), 0)
            && Num(w, lanes, 0) == Num(w, Chosen(top, keys), 0)
            && (AllMasked(lanes) <==> top == [])
  {
    var gsel := TK.PosRow(top, K);
    var lanes := Lanes(gsel, K, keys);
    var pad: seq<Lane> := lanes[|top|..];
    assert lanes == Chosen(top, keys) + pad by {
      assert forall i :: 0 <= i < |top| ==> top[i] in top && gsel[i] == top[i].pos;
    }
    assert AllMasked(pad);
    PadTile(w, Chosen(top, keys), pad, 0);
    if top != [] {
      assert lanes[0] == Chosen(top, keys)[0];
    }
  }

  /** All shards together carry the sums of the selection. */
  lemma ShardsCarrySelection(w: Weight, gsel: seq<int>, keys: seq<Key>, N: nat)
    requires N > 0 && forall j :: 0 <= j < |gsel| ==> gsel[j] < |keys|
    ensures var joined, lanes := Join(AllShards(gsel, keys, N)), Lanes(gsel, |gsel|, keys);
            && Den(w, joined, 0) == Den(w, lanes, 0)
            && Num(w, joined, 0) == Num(w, lanes, 0)
            && (AllMasked(joined) <==> AllMasked(lanes))
  {
    var joined, lanes := Join(AllShards(gsel, keys, N)), Lanes(gsel, |gsel|, keys);
    assert AllShards(gsel, keys, N)[0..] == AllShards(gsel, keys, N);
    assert OwnedFrom(gsel, keys, N, 0) == lanes;
    ShardsSum(Weigh(w, 0), gsel, keys, N, 0);
    ShardsSum(WeighValue(w, 0), gsel, keys, N, 0);
    Unshift(w, joined);
    Unshift(w, lanes);
  }

  lemma {:induction false} TopInRange(logits: seq<TK.Logit>, K: nat)
    ensures forall c :: c in TK.TopK(CandidateUnion.Global(logits), K) ==> 0 <= c.pos < |logits|
  {}

  // ---- the two steps ----

  /** The step after the selection: write-back, one attention per shard, recombination. Whatever rows
      were selected, the result is the attention over them, None when there are none. */
  method AttendSelected(w: Weight, gsel: seq<int>, keys: seq<Key>, N: nat, blockN: nat) returns (out: Option<real>)
    requires N > 0 && blockN > 0 && forall j :: 0 <= j < |gsel| ==> gsel[j] < |keys|
    ensures out.None? <==> AllMasked(Lanes(gsel, |gsel|, keys))
    ensures out.Some? ==> out.value == Attention(w, Lanes(gsel, |gsel|, keys))
  {
    ghost var shards := AllShards(gsel, keys, N);
    var partials: seq<Partial> := [];
    for r := 0 to N
      invariant |partials| == r
      invariant forall t :: 0 <= t < r ==> partials[t] == PartialOf(w, shards[t])
    {
      var rows := Reassembly.OwnedWriteback(gsel, N, r);
      var p := AttendShard(w, rows, ShardCache(keys, N, r), blockN);
      partials := partials + [p];
    }
    var merged := RecombineAll(partials);
    out := if merged.Some? then Some(merged.value.out) else None;
    SelectedExact(w, gsel, keys, N, shards, partials);
  }

  lemma SelectedExact(w: Weight, gsel: seq<int>, keys: seq<Key>, N: nat, shards: seq<seq<Lane>>, ps: seq<Partial>)
    requires N > 0 && forall j :: 0 <= j < |gsel| ==> gsel[j] < |keys|
    requires shards == AllShards(gsel, keys, N)
    requires |ps| == N && forall r :: 0 <= r < N ==> ps[r] == PartialOf(w, shards[r])
    ensures RecombineAll(ps).None? <==> AllMasked(Lanes(gsel, |gsel|, keys))
    ensures RecombineAll(ps).Some? ==> RecombineAll(ps).value.out == Attention(w, Lanes(gsel, |gsel|, keys))
  {
    hide Sum;
    RecombineAllExact(w, shards, ps);
    PartialMeaning(w, Join(shards));
    ShardsCarrySelection(w, gsel, keys, N);
  }

  /** Local selections, union, write-back, one attention per shard, recombination. */
  method DistributedStep(w: Weight, logits: seq<TK.Logit>, keys: seq<Key>, N: nat, K: nat, ranks: seq<nat>, blockN: nat)
    returns (out: Option<real>)
    requires CandidateUnion.RankOrder(ranks, N) && |logits| == |keys| && blockN > 0
    ensures forall c :: c in TK.TopK(CandidateUnion.Global(logits), K) ==> 0 <= c.pos < |keys|
    ensures out.None? <==> TK.TopK(CandidateUnion.Global(logits), K) == []
    ensures out.Some? ==> out.value == Attention(w, Chosen(TK.TopK(CandidateUnion.Global(logits), K), keys))
  {
    ghost var top := TK.TopK(CandidateUnion.Global(logits), K);
    TopInRange(logits, K);
    assert forall j :: 0 <= j < |top| ==> top[j] in top;
    var gsel := CandidateUnion.SelectDecode(logits, N, K, ranks);
    out := AttendSelected(w, gsel, keys, N, blockN);
    SelectionLanes(w, top, K, keys);
  }

  /** The step without sharding: one selection over all logits, one attention over all keys. */
  method UnshardedStep(w: Weight, logits: seq<TK.Logit>, keys: seq<Key>, K: nat, blockN: nat) returns (out: real)
    requires |logits| == |keys| && blockN > 0
    ensures forall c :: c in TK.TopK(CandidateUnion.Global(logits), K) ==> 0 <= c.pos < |keys|
    ensures out == Attention(w, Chosen(TK.TopK(CandidateUnion.Global(logits), K), keys))
  {
    ghost var top := TK.TopK(CandidateUnion.Global(logits), K);
    TopInRange(logits, K);
    var gsel := CandidateUnion.SelectBrute(logits, K);
    var p := AttendShard(w, gsel, keys, blockN);
    out := p.out;
    UnshardedExact(w, top, K, keys);
  }

  lemma UnshardedExact(w: Weight, top: seq<TK.Cand>, K: nat, keys: seq<Key>)
    requires |top| <= K && forall c :: c in top ==> 0 <= c.pos < |keys|
    ensures PartialOf(w, Lanes(TK.PosRow(top, K), K, keys)).out == Attention(w, Chosen(top, keys))
  {
    hide Sum;
    SelectionLanes(w, top, K, keys);
    PartialMeaning(w, Lanes(TK.PosRow(top, K), K, keys));
  }

  /** The sharded step computes what the unsharded one computes, for every number of ranks, gather
      order and pair of tile widths, ranks without a selected key included. It has a result exactly
      when something is selected; with nothing selected every lse is -inf and the recombination is
      NaN, where the unsharded step returns 0. */
  method StepsAgree(w: Weight, logits: seq<TK.Logit>, keys: seq<Key>, N: nat, K: nat, ranks: seq<nat>,
                    blockN: nat, blockN': nat)
    returns (sharded: Option<real>, whole: real)
    requires CandidateUnion.RankOrder(ranks, N) && |logits| == |keys| && blockN > 0 && blockN' > 0
    ensures sharded.Some? ==> sharded.value == whole
    ensures sharded.Some? <==> K > 0 && exists p :: 0 <= p < |logits| && logits[p].Fin?
    ensures sharded.None? ==> whole == 0.0
  {
    sharded := DistributedStep(w, logits, keys, N, K, ranks, blockN);
    whole := UnshardedStep(w, logits, keys, K, blockN');
    ghost var all := CandidateUnion.Global(logits);
    if p :| 0 <= p < |logits| && logits[p].Fin? {
      assert TK.Cand(logits[p].x, p) in all;
    }
    if x :| x in all {
      assert logits[x.pos].Fin?;
    }
    if sharded.None? {
      MaskedIsEmpty(w, Chosen([], keys), 0);
    }
  }

  // ---- the step when selections break ties in any way ----

  /** Σ f over the keys at a set of positions. */
  ghost function SumOver(f: Lane -> real, keys: seq<Key>, s: set<int>): real
    requires forall p :: p in s ==> 0 <= p < |keys|
    decreases |s|
  {
    if s == {} then 0.0 else f(Some(keys[AnyOf(s)])) + SumOver(f, keys, s - {AnyOf(s)})
  }

  ghost function AnyOf<T>(s: set<T>): (x: T)
    requires s != {}
    ensures x in s
  {
    var x :| x in s;
    x
  }

  lemma {:induction false} SumOverWithout(f: Lane -> real, keys: seq<Key>, s: set<int>, p: int)
    requires (forall q :: q in s ==> 0 <= q < |keys|) && p in s
    ensures SumOver(f, keys, s) == f(Some(keys[p])) + SumOver(f, keys, s - {p})
    decreases |s|
  {
    var q := AnyOf(s);
    if q != p {
      SumOverWithout(f, keys, s - {q}, p);
      SumOverWithout(f, keys, s - {p}, q);
      assert s - {q} - {p} == s - {p} - {q};
    }
  }

  /** A row of distinct positions; -1 marks a free slot. */
  ghost predicate PositionRow(gsel: seq<int>, n: nat) {
    && (forall i :: 0 <= i < |gsel| ==> -1 <= gsel[i] < n)
    && (forall i, j :: 0 <= i < j < |gsel| && gsel[i] >= 0 && gsel[j] >= 0 ==> gsel[i] != gsel[j])
  }

  /** Summing over the lanes of a row depends only on the set of positions it holds. */
  lemma {:induction false} RowSum(f: Lane -> real, gsel: seq<int>, keys: seq<Key>)
    requires PositionRow(gsel, |keys|) && f(None) == 0.0
    ensures forall p :: p in KeptSet(gsel) ==> 0 <= p < |keys|
    ensures Sum(f, Lanes(gsel, |gsel|, keys)) == SumOver(f, keys, KeptSet(gsel))
  {
    if gsel == [] {
      assert KeptSet(gsel) == {};
    } else {
      var rest := gsel[1..];
      RowSum(f, rest, keys);
      assert Lanes(gsel, |gsel|, keys)[1..] == Lanes(rest, |rest|, keys);
      if gsel[0] >= 0 {
        assert gsel[0] !in rest;
        assert KeptSet(gsel) - {gsel[0]} == KeptSet(rest);
        SumOverWithout(f, keys, KeptSet(gsel), gsel[0]);
      } else {
        assert KeptSet(gsel) == KeptSet(rest);
      }
    }
  }

  /** Σ w(sᵢ)·vᵢ / Σ w(sᵢ) over a set of positions. */
  ghost function AttentionOver(w: Weight, keys: seq<Key>, s: set<int>): real
    requires forall p :: p in s ==> 0 <= p < |keys|
  {
    var den := SumOver(Weigh(w, 0), keys, s);
    if den == 0.0 then 0.0 else SumOver(WeighValue(w, 0), keys, s) / den
  }

  lemma RowAttention(w: Weight, gsel: seq<int>, keys: seq<Key>)
    requires PositionRow(gsel, |keys|)
    ensures forall p :: p in KeptSet(gsel) ==> 0 <= p < |keys|
    ensures Attention(w, Lanes(gsel, |gsel|, keys)) == AttentionOver(w, keys, KeptSet(gsel))
    ensures AllMasked(Lanes(gsel, |gsel|, keys)) <==> KeptSet(gsel) == {}
  {
    var lanes := Lanes(gsel, |gsel|, keys);
    RowSum(Weigh(w, 0), gsel, keys);
    RowSum(WeighValue(w, 0), gsel, keys);
    if i :| 0 <= i < |lanes| && lanes[i].Some? {
      assert gsel[i] in KeptSet(gsel);
    }
    forall i | 0 <= i < |gsel| && gsel[i] >= 0
      ensures lanes[i].Some?
    {}
  }

  /** The sharded step with plain top-ks attends over some best set of the keys, spread over the
      shards as before. */
  method AnyTiesStep(w: Weight, logits: seq<TK.Logit>, keys: seq<Key>, N: nat, K: nat, ranks: seq<nat>, blockN: nat)
    returns (gsel: seq<int>, out: Option<real>)
    requires CandidateUnion.RankOrder(ranks, N) && |logits| == |keys| && blockN > 0
    ensures BestSet(KeptSet(gsel), logits, K)
    ensures forall p :: p in KeptSet(gsel) ==> 0 <= p < |keys|
    ensures out.None? <==> KeptSet(gsel) == {}
    ensures out.Some? ==> out.value == AttentionOver(w, keys, KeptSet(gsel))
  {
    hide BestSet, BestAmong;
    gsel := AnyTies.SelectAnyTies(logits, N, K, ranks);
    out := AttendSelected(w, gsel, keys, N, blockN);
    RowAttention(w, gsel, keys);
  }

  /** The strict selection as a row of positions. */
  lemma {:induction false} StrictRow(logits: seq<TK.Logit>, K: nat)
    ensures var top := TK.TopK(CandidateUnion.Global(logits), K);
            && PositionRow(TK.PosRow(top, K), |logits|)
            && KeptSet(TK.PosRow(top, K)) == PositionsOf(top)
            && PositionsOf(top) <= FinitePositions(logits)
  {
    var top := TK.TopK(CandidateUnion.Global(logits), K);
    var row := TK.PosRow(top, K);
    assert forall i :: 0 <= i < |top| ==> top[i] in top;
    forall i, j | 0 <= i < j < |top|
      ensures top[i].pos != top[j].pos
    {
      assert TK.Before(top[i], top[j]);
    }
    forall p | p in PositionsOf(top)
      ensures p in KeptSet(row)
    {
      var i :| 0 <= i < |top| && top[i].pos == p;
      assert row[i] == p;
    }
  }

  /** With plain top-ks the sharded step returns what the strict unsharded one returns whenever the
      K-th score is not tied. */
  method AnyTiesAgree(w: Weight, logits: seq<TK.Logit>, keys: seq<Key>, N: nat, K: nat, ranks: seq<nat>,
                      blockN: nat, blockN': nat)
    returns (sharded: Option<real>, whole: real)
    requires CandidateUnion.RankOrder(ranks, N) && |logits| == |keys| && blockN > 0 && blockN' > 0
    ensures PositionsOf(TK.TopK(CandidateUnion.Global(logits), K)) <= FinitePositions(logits)
    ensures AnyTies.Untied(logits, PositionsOf(TK.TopK(CandidateUnion.Global(logits), K))) && sharded.Some? ==>
              sharded.value == whole
    ensures sharded.Some? <==> K > 0 && exists p :: 0 <= p < |logits| && logits[p].Fin?
  {
    hide BestSet, BestAmong;
    ghost var top := TK.TopK(CandidateUnion.Global(logits), K);
    StrictRow(logits, K);
    StrictIsBest(logits, K);
    AnyTies.BestIsUniqueIff(logits, PositionsOf(top), K);
    var gsel;
    gsel, sharded := AnyTiesStep(w, logits, keys, N, K, ranks, blockN);
    whole := UnshardedStep(w, logits, keys, K, blockN');
    TopInRange(logits, K);
    SelectionLanes(w, top, K, keys);
    RowAttention(w, TK.PosRow(top, K), keys);
    AnyTies.BestIsEmptyIff(KeptSet(gsel), logits, K);
  }
}
