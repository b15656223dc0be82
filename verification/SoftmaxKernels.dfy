/** The loops that scan a candidate list once, with a running maximum. */
module SoftmaxKernels {
  import opened Weights
  import opened Wrappers
  import opened Softmax

  /** Candidate column i: native semantics drop a column whose index is negative, past the cache,
      or at or beyond the per-token length. Columns past the list load the sentinel -1. */
  function LoadLane(indices: seq<int>, lens: int, cache: seq<Key>, i: nat): Lane {
    var slot := if i < |indices| then indices[i] else -1;
    if 0 <= slot < |cache| && i < lens then Some(cache[slot]) else None
  }

  function Lanes(indices: seq<int>, lens: int, cache: seq<Key>): (lanes: seq<Lane>)
    ensures |lanes| == |indices|
    ensures forall i :: 0 <= i < |lanes| ==> lanes[i] == LoadLane(indices, lens, cache, i)
  {
    seq(|indices|, i requires 0 <= i => LoadLane(indices, lens, cache, i))
  }

  lemma {:induction false} PadTile(w: Weight, lanes: seq<Lane>, pad: seq<Lane>, k: int)
    requires AllMasked(pad)
    ensures LaneMax(lanes + pad) == LaneMax(lanes)
    ensures Den(w, lanes + pad, k) == Den(w, lanes, k)
    ensures Num(w, lanes + pad, k) == Num(w, lanes, k)
  {
    Concat(w, lanes, pad, k);
    MaskedIsEmpty(w, pad, k);
  }

  /** One pass of the tiled loop, including a tile (and a prefix) without any valid candidate. */
  lemma {:induction false} TileUpdate(w: Weight, a: seq<Lane>, tile: seq<Lane>, st: State, next: Ext, safe: int,
                                      den: real, num: real)
    requires st == Closed(w, a)
    requires next == MaxExt(st.max, LaneMax(tile))
    requires safe == if next.Lowest? then 0 else next.s
    requires den == Den(w, tile, safe) && num == Num(w, tile, safe)
    ensures Absorb(w, st, safe, den, num).(max := next) == Closed(w, a + tile)
  {
    hide Sum, MulAdd;
    LaneMaxConcat(a, tile);
    match next
    case Lowest =>
      MaskedIsEmpty(w, tile, 0);
      AbsorbEmpty(w);
    case At(k) =>
      Extend(w, a, tile, k);
  }

  lemma AbsorbEmpty(w: Weight)
    ensures Absorb(w, EMPTY, 0, 0.0, 0.0).(max := Lowest) == EMPTY
  {}

  lemma TileParts(all: seq<Lane>, n0: nat, tile: seq<Lane>)
    requires n0 < |all|
    requires forall j :: 0 <= j < |tile| ==> tile[j] == if n0 + j < |all| then all[n0 + j] else None
    ensures var hi := Min(n0 + |tile|, |all|);
            && tile == all[n0..hi] + tile[hi - n0..] && AllMasked(tile[hi - n0..])
            && all[..hi] == all[..n0] + all[n0..hi]
  {
    var hi := Min(n0 + |tile|, |all|);
    forall j | 0 <= j < hi - n0
      ensures tile[j] == all[n0..hi][j]
    {}
    assert tile[..hi - n0] == all[n0..hi];
    assert tile == tile[..hi - n0] + tile[hi - n0..];
  }

  /** The tile loaded at column n0 holds the next columns of the list, then masked padding. */
  lemma {:induction false} TileStep(w: Weight, all: seq<Lane>, n0: nat, tile: seq<Lane>, st: State, next: Ext,
                                    safe: int, den: real, num: real)
    requires n0 < |all| && |tile| > 0
    requires forall j :: 0 <= j < |tile| ==> tile[j] == if n0 + j < |all| then all[n0 + j] else None
    requires st == Closed(w, all[..n0])
    requires next == MaxExt(st.max, LaneMax(tile))
    requires safe == if next.Lowest? then 0 else next.s
    requires den == Den(w, tile, safe) && num == Num(w, tile, safe)
    ensures Absorb(w, st, safe, den, num).(max := next) == Closed(w, all[..Min(n0 + |tile|, |all|)])
  {
    hide Sum, Closed, Absorb, LaneMax, Den, Num, ExpDiff;
    var hi := Min(n0 + |tile|, |all|);
    TileParts(all, n0, tile);
    PadTile(w, all[n0..hi], tile[hi - n0..], safe);
    TileUpdate(w, all[..n0], all[n0..hi], st, next, safe, den, num);
  }

  /** The fused gather-dequant-attend kernel: candidates in tiles of blockN, the last one padded
      with masked lanes; safe stands in for a maximum that is still -inf. */
  method FusedAttend(w: Weight, indices: seq<int>, lens: int, cache: seq<Key>, blockN: nat) returns (st: State)
    requires blockN > 0
    ensures st == Closed(w, Lanes(indices, lens, cache))
  {
    hide Sum, Closed, LaneMax, MulAdd;
    ClosedEmpty(w);
    ghost var all := Lanes(indices, lens, cache);
    var runningMax, runningDenom, runningAcc := Lowest, 0.0, 0.0;
    var n0 := 0;
    assert all[..0] == [];
    while n0 < |indices|
      invariant 0 <= n0
      invariant State(runningMax, runningDenom, runningAcc) == Closed(w, all[..Min(n0, |indices|)])
    {
      var tile := seq(blockN, j requires 0 <= j => LoadLane(indices, lens, cache, n0 + j));
      var nextMax := MaxExt(runningMax, LaneMax(tile));
      var safeNext := if nextMax.Lowest? then 0 else nextMax.s;
      var previousWeight := ExpDiff(w, runningMax, safeNext);
      var tileDenom, tileAcc := Den(w, tile, safeNext), Num(w, tile, safeNext);
      ghost var st0 := State(runningMax, runningDenom, runningAcc);
      TileStep(w, all, n0, tile, st0, nextMax, safeNext, tileDenom, tileAcc);
      runningAcc := MulAdd(runningAcc, previousWeight, tileAcc);
      runningDenom := MulAdd(runningDenom, previousWeight, tileDenom);
      runningMax := nextMax;
      n0 := n0 + blockN;
    }
    assert all[..|indices|] == all;
    st := State(runningMax, runningDenom, runningAcc);
  }

  lemma SingleLane(w: Weight, key: Key, k: int, den: real)
    requires den == w(key.score - k)
    ensures LaneMax([Some(key)]) == At(key.score)
    ensures Den(w, [Some(key)], k) == den
    ensures Num(w, [Some(key)], k) == key.value * den
  {
    var tail: seq<Lane> := [];
    assert [Some(key)][1..] == tail;
    assert Sum(Weigh(w, k), tail) == 0.0 && Sum(WeighValue(w, k), tail) == 0.0;
  }

  /** The one-candidate step shared by the scalar loops. */
  lemma StepUpdate(w: Weight, a: seq<Lane>, key: Key, st: State, k: int, den: real, num: real)
    requires st == Closed(w, a)
    requires MaxExt(st.max, At(key.score)) == At(k)
    requires den == w(key.score - k) && num == key.value * den
    ensures Absorb(w, st, k, den, num) == Closed(w, a + [Some(key)])
  {
    hide Sum, MulAdd, Den, Num;
    SingleLane(w, key, k, den);
    Extend(w, a, [Some(key)], k);
  }

  lemma PadClosed(w: Weight, a: seq<Lane>, pad: seq<Lane>)
    requires AllMasked(pad)
    ensures Closed(w, a + pad) == Closed(w, a)
  {
    hide Sum;
    PadTile(w, a, pad, if LaneMax(a).At? then LaneMax(a).s else 0);
  }

  lemma SkipMasked(w: Weight, a: seq<Lane>)
    ensures Closed(w, a + [None]) == Closed(w, a)
  {
    PadClosed(w, a, [None]);
  }

  /** The materialised kernel: one candidate at a time, masked ones skipped. */
  method MaterializedAttend(w: Weight, kv: seq<Key>, valid: seq<bool>) returns (st: State)
    requires |kv| == |valid|
    ensures st == Closed(w, seq(|kv|, i requires 0 <= i < |kv| => if valid[i] then Some(kv[i]) else None))
  {
    ghost var all := seq(|kv|, i requires 0 <= i < |kv| => if valid[i] then Some(kv[i]) else None);
    hide Sum, Closed, LaneMax, MulAdd;
    ClosedEmpty(w);
    var runningMax, runningDenom, runningAcc := Lowest, 0.0, 0.0;
    assert all[..0] == [];
    for c := 0 to |kv|
      invariant State(runningMax, runningDenom, runningAcc) == Closed(w, all[..c])
    {
      assert all[..c + 1] == all[..c] + [all[c]];
      if valid[c] {
        ghost var st0 := State(runningMax, runningDenom, runningAcc);
        var nextMax := MaxExt(runningMax, At(kv[c].score));
        var previousWeight := ExpDiff(w, runningMax, nextMax.s);
        var candidateWeight := w(kv[c].score - nextMax.s);
        StepUpdate(w, all[..c], kv[c], st0, nextMax.s, candidateWeight, kv[c].value * candidateWeight);
        runningAcc := MulAdd(runningAcc, previousWeight, kv[c].value * candidateWeight);
        runningDenom := MulAdd(runningDenom, previousWeight, candidateWeight);
        runningMax := nextMax;
      } else {
        SkipMasked(w, all[..c]);
      }
    }
    assert all[..|kv|] == all;
    st := State(runningMax, runningDenom, runningAcc);
  }

  /** The scalar indexed kernel: resumes from the state left by earlier chunks (over `seen`) and
      scans one chunk of columns, which starts at column `offset` of the token's list. */
  method IndexedAccumulate(w: Weight, st0: State, indices: seq<int>, lens: int, offset: nat, cache: seq<Key>,
                           ghost seen: seq<Lane>)
    returns (st: State)
    requires st0 == Closed(w, seen)
    ensures st == Closed(w, seen + Lanes(indices, lens - offset, cache))
  {
    ghost var all := Lanes(indices, lens - offset, cache);
    hide Sum, Closed, MulAdd;
    var runningMax, runningDenom, runningAcc := st0.max, st0.denom, st0.acc;
    var localEff := Min(|indices|, Max(lens - offset, 0));
    assert seen + all[..0] == seen;
    for c := 0 to localEff
      invariant State(runningMax, runningDenom, runningAcc) == Closed(w, seen + all[..c])
    {
      ghost var before := seen + all[..c];
      assert seen + all[..c + 1] == before + [all[c]];
      var kvIndex := indices[c];
      if 0 <= kvIndex < |cache| {
        ghost var stc := State(runningMax, runningDenom, runningAcc);
        var kv := cache[kvIndex];
        var nextMax := MaxExt(runningMax, At(kv.score));
        var previousWeight := ExpDiff(w, runningMax, nextMax.s);
        var candidateWeight := w(kv.score - nextMax.s);
        StepUpdate(w, before, kv, stc, nextMax.s, candidateWeight, kv.value * candidateWeight);
        runningAcc := MulAdd(runningAcc, previousWeight, kv.value * candidateWeight);
        runningDenom := MulAdd(runningDenom, previousWeight, candidateWeight);
        runningMax := nextMax;
      } else {
        SkipMasked(w, before);
      }
    }
    st := State(runningMax, runningDenom, runningAcc);
    ghost var done, rest := seen + all[..localEff], all[localEff..];
    assert seen + all == done + rest;
    PadClosed(w, done, rest);
  }
}
