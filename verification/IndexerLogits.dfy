/** The indexer's logits: a weighted sum over heads of relu(q·k·scale), computed densely in head
    and key tiles, and over a paged cache in windows. One query row is modelled. */
module IndexerLogits {
  import opened Wrappers
  import opened StrictTopK

  /** One query row: per head a vector and a weight. */
  datatype Query = Query(q: seq<seq<real>>, weights: seq<real>, dim: nat)
  {
    ghost predicate Valid() {
      |q| == |weights| && forall h :: 0 <= h < |q| ==> |q[h]| == dim
    }
  }

  /** One cached key: quantised values and their scale. */
  datatype KeyRow = KeyRow(k: seq<real>, scale: real)

  function Relu(x: real): real {
    if x > 0.0 then x else 0.0
  }

  /** Σ a[d]·b[d] for lo <= d < hi. */
  function Dot(a: seq<real>, b: seq<real>, lo: nat, hi: nat): real
    requires lo <= hi <= |a| && hi <= |b|
    decreases hi - lo
  {
    if lo == hi then 0.0 else Dot(a, b, lo, hi - 1) + a[hi - 1] * b[hi - 1]
  }

  /** One head's weighted contribution to one key's logit. */
  function Term(row: Query, key: KeyRow, h: nat): real
    requires row.Valid() && |key.k| == row.dim && h < |row.q|
  {
    Relu(Dot(row.q[h], key.k, 0, row.dim) * key.scale) * row.weights[h]
  }

  /** The plain sum over heads lo..hi. */
  function HeadSum(row: Query, key: KeyRow, lo: nat, hi: nat): real
    requires row.Valid() && |key.k| == row.dim && lo <= hi <= |row.q|
    decreases hi - lo
  {
    if lo == hi then 0.0 else HeadSum(row, key, lo, hi - 1) + Term(row, key, hi - 1)
  }

  lemma {:induction false} HeadSumSplits(row: Query, key: KeyRow, lo: nat, mid: nat, hi: nat)
    requires row.Valid() && |key.k| == row.dim && lo <= mid <= hi <= |row.q|
    ensures HeadSum(row, key, lo, hi) == HeadSum(row, key, lo, mid) + HeadSum(row, key, mid, hi)
    decreases hi - mid
  {
    hide Term;
    if mid < hi { HeadSumSplits(row, key, lo, mid, hi - 1); }
  }

  lemma {:induction false} DotSplits(a: seq<real>, b: seq<real>, lo: nat, mid: nat, hi: nat)
    requires lo <= mid <= hi <= |a| && hi <= |b|
    ensures Dot(a, b, lo, hi) == Dot(a, b, lo, mid) + Dot(a, b, mid, hi)
    decreases hi - mid
  {
    if mid < hi { DotSplits(a, b, lo, mid, hi - 1); }
  }

  /** What one head adds: nothing when its scaled product is not positive, else its weight times it. */
  lemma {:induction false} HeadAdds(row: Query, key: KeyRow, h: nat)
    requires row.Valid() && |key.k| == row.dim && h < |row.q|
    ensures var x := Dot(row.q[h], key.k, 0, row.dim) * key.scale;
            && (x <= 0.0 ==> HeadSum(row, key, h, h + 1) == 0.0)
            && (x >= 0.0 ==> HeadSum(row, key, h, h + 1) == x * row.weights[h])
  {
    assert HeadSum(row, key, h, h) == 0.0;
  }

  /** The logit is the product of the weights with the heads' scores, negative scores taken as 0. */
  lemma {:induction false} HeadSumIs(row: Query, key: KeyRow, xs: seq<real>, lo: nat, hi: nat)
    requires row.Valid() && |key.k| == row.dim && lo <= hi <= |row.q| == |xs|
    requires forall h :: 0 <= h < |xs| ==>
               var x := Dot(row.q[h], key.k, 0, row.dim) * key.scale;
               xs[h] == if x <= 0.0 then 0.0 else x
    ensures HeadSum(row, key, lo, hi) == Dot(xs, row.weights, lo, hi)
    decreases hi - lo
  {
    if lo < hi {
      HeadSumIs(row, key, xs, lo, hi - 1);
      HeadSumSplits(row, key, lo, hi - 1, hi);
      HeadAdds(row, key, hi - 1);
    }
  }

  /** A key that no head scores above 0 has logit 0. */
  lemma {:induction false} NothingPositive(row: Query, key: KeyRow, lo: nat, hi: nat)
    requires row.Valid() && |key.k| == row.dim && lo <= hi <= |row.q|
    requires forall h :: lo <= h < hi ==> Dot(row.q[h], key.k, 0, row.dim) * key.scale <= 0.0
    ensures HeadSum(row, key, lo, hi) == 0.0
    decreases hi - lo
  {
    if lo < hi {
      NothingPositive(row, key, lo, hi - 1);
      HeadSumSplits(row, key, lo, hi - 1, hi);
      HeadAdds(row, key, hi - 1);
    }
  }

  // ---- dense logits ----

  const MAX_SCORE_BYTES: nat := 64 * 1024 * 1024

  function HeadChunkSize(seqLen: nat, seqLenKv: nat, numHeads: nat): (n: nat)
    ensures n >= 1
  {
    var elems := Max(1, seqLen * seqLenKv);
    var maxHeads := MAX_SCORE_BYTES / (elems * 4);
    Max(1, Min(8, Min(numHeads, maxHeads)))
  }

  function KeyChunkSize(seqLen: nat, seqLenKv: nat, headChunk: nat): (n: nat)
    ensures n >= 1
  {
    var elems := Max(1, seqLen * headChunk);
    var maxKeys := MAX_SCORE_BYTES / (elems * 4);
    Max(1, Min(seqLenKv, maxKeys))
  }

  // ---- the size of the transient score tile ----

  lemma DivideUp(budget: nat, unit: nat, n: nat)
    requires unit > 0 && n <= budget / unit
    ensures n * unit <= budget
  {}

  lemma MulMono(a: nat, b: nat, c: nat)
    requires a <= b
    ensures a * c <= b * c && c * a <= c * b
  {}

  lemma ManyKeys(seqLen: nat, h: nat, n: nat)
    requires n <= MAX_SCORE_BYTES / (Max(1, seqLen * h) * 4)
    ensures 4 * (h * seqLen * n) <= MAX_SCORE_BYTES
  {}

  lemma ManyHeads(seqLen: nat, seqLenKv: nat, h: nat)
    requires seqLenKv >= 1 && h <= MAX_SCORE_BYTES / (Max(1, seqLen * seqLenKv) * 4)
    ensures 4 * (h * seqLen) <= MAX_SCORE_BYTES
  {
    var perHead := Max(1, seqLen * seqLenKv);
    DivideUp(MAX_SCORE_BYTES, perHead * 4, h);
    MulMono(1, seqLenKv, seqLen);
    MulMono(seqLen, perHead, h);
  }

  /** A tile of h heads and n keys stays within the budget, where the key chunk was sized for
      `sized` >= h heads and neither chunk exceeds the computed sizes; a single key of a single
      head may exceed it when the query axis alone does. */
  lemma TileWithinBudget(seqLen: nat, seqLenKv: nat, numHeads: nat, sized: nat, h: nat, n: nat)
    requires h <= sized <= HeadChunkSize(seqLen, seqLenKv, numHeads)
    requires n <= KeyChunkSize(seqLen, seqLenKv, sized) && n <= seqLenKv
    ensures 4 * (h * seqLen * n) <= Max(67108864, 4 * seqLen)
  {
    MulMono(h, sized, seqLen);
    MulMono(h * seqLen, sized * seqLen, n);
    if n <= MAX_SCORE_BYTES / (Max(1, seqLen * sized) * 4) {
      ManyKeys(seqLen, sized, n);
    } else if n > 0 {
      assert n == 1;
      if sized > 1 {
        ManyHeads(seqLen, seqLenKv, sized);
      }
    }
  }

  lemma OverBudget(budget: nat, unit: nat, n: nat)
    requires unit > 0 && budget / unit < n
    ensures budget < n * unit
  {
    var q := budget / unit;
    assert budget < (q + 1) * unit;
    MulMono(q + 1, n, unit);
  }

  /** The chunk sizes, in plain numbers: at least 1, at most 8 heads and what there is, and no smaller
      than they must be: one more would exceed 64 MiB on the full key axis, or on the chunk's heads. */
  lemma ChunkSizesAre(seqLen: nat, seqLenKv: nat, numHeads: nat, sized: nat)
    ensures 1 <= HeadChunkSize(seqLen, seqLenKv, numHeads) <= Max(1, Min(8, numHeads))
    ensures 1 <= KeyChunkSize(seqLen, seqLenKv, sized) <= Max(1, seqLenKv)
    ensures forall h :: HeadChunkSize(seqLen, seqLenKv, numHeads) < h <= Min(8, numHeads) ==>
              h * (Max(1, seqLen * seqLenKv) * 4) > 67108864
    ensures forall n :: KeyChunkSize(seqLen, seqLenKv, sized) < n <= seqLenKv ==>
              n * (Max(1, seqLen * sized) * 4) > 67108864
  {
    forall h | HeadChunkSize(seqLen, seqLenKv, numHeads) < h <= Min(8, numHeads)
      ensures h * (Max(1, seqLen * seqLenKv) * 4) > 67108864
    {
      OverBudget(MAX_SCORE_BYTES, Max(1, seqLen * seqLenKv) * 4, h);
    }
    forall n | KeyChunkSize(seqLen, seqLenKv, sized) < n <= seqLenKv
      ensures n * (Max(1, seqLen * sized) * 4) > 67108864
    {
      OverBudget(MAX_SCORE_BYTES, Max(1, seqLen * sized) * 4, n);
    }
  }

  /** The dequantised key the dense path multiplies with. */
  function Dequantised(key: KeyRow): (k: seq<real>)
    ensures |k| == |key.k| && forall d :: 0 <= d < |k| ==> k[d] == key.k[d] * key.scale
  {
    seq(|key.k|, d requires 0 <= d < |key.k| => key.k[d] * key.scale)
  }

  lemma ScaleDot(x: real, y: real, a: real, b: real, s: real)
    requires x == y * s
    ensures x + a * (b * s) == (y + a * b) * s
  {}

  /** Scaling the key before the dot product, or the score after it, is the same. */
  lemma {:induction false} DequantisedDot(a: seq<real>, key: KeyRow, hi: nat)
    requires hi <= |a| && hi <= |key.k|
    ensures Dot(a, Dequantised(key), 0, hi) == Dot(a, key.k, 0, hi) * key.scale
  {
    if hi > 0 {
      DequantisedDot(a, key, hi - 1);
      ScaleDot(Dot(a, Dequantised(key), 0, hi - 1), Dot(a, key.k, 0, hi - 1), a[hi - 1], key.k[hi - 1], key.scale);
    }
  }

  /** matmul, relu, weights and the sum over the heads of one score tile. */
  function TileSum(row: Query, key: KeyRow, lo: nat, hi: nat): (s: real)
    requires row.Valid() && |key.k| == row.dim && lo <= hi <= |row.q|
    ensures s == HeadSum(row, key, lo, hi)
    decreases hi - lo
  {
    if lo == hi then 0.0
    else
      DequantisedDot(row.q[hi - 1], key, row.dim);
      TileSum(row, key, lo, hi - 1) + Relu(Dot(row.q[hi - 1], Dequantised(key), 0, row.dim)) * row.weights[hi - 1]
  }

  ghost predicate Keys(row: Query, keys: seq<KeyRow>) {
    row.Valid() && forall n :: 0 <= n < |keys| ==> |keys[n].k| == row.dim
  }

  /** One (head chunk, key chunk) tile, added in place. */
  method AddTile(row: Query, keys: seq<KeyRow>, hs: nat, he: nat, ks: nat, ke: nat, logits: array<real>)
    requires Keys(row, keys) && hs <= he <= |row.q| && ks <= ke <= |keys| == logits.Length
    modifies logits
    ensures forall n :: 0 <= n < |keys| ==>
              logits[n] == old(logits[n]) + (if ks <= n < ke then HeadSum(row, keys[n], hs, he) else 0.0)
  {
    forall n | ks <= n < ke {
      logits[n] := logits[n] + TileSum(row, keys[n], hs, he);
    }
  }

  /** All key chunks of one head chunk; the key chunk size is recomputed for a shorter last chunk. */
  method AddHeadChunk(row: Query, keys: seq<KeyRow>, seqLen: nat, hs: nat, he: nat, logits: array<real>)
    requires Keys(row, keys) && hs <= he <= |row.q| && |keys| == logits.Length
    requires he - hs <= HeadChunkSize(seqLen, |keys|, |row.q|)
    modifies logits
    ensures forall n :: 0 <= n < |keys| ==> logits[n] == old(logits[n]) + HeadSum(row, keys[n], hs, he)
  {
    hide HeadSum;
    var kChunk := KeyChunkSize(seqLen, |keys|, he - hs);
    var ks := 0;
    while ks < |keys|
      invariant 0 <= ks
      invariant forall n :: 0 <= n < |keys| ==>
                  logits[n] == old(logits[n]) + (if n < ks then HeadSum(row, keys[n], hs, he) else 0.0)
    {
      var ke := Min(ks + kChunk, |keys|);
      assert 4 * ((he - hs) * seqLen * (ke - ks)) <= Max(67108864, 4 * seqLen) by {
        TileWithinBudget(seqLen, |keys|, |row.q|, he - hs, he - hs, ke - ks);
      }
      AddTile(row, keys, hs, he, ks, ke, logits);
      ks := ks + kChunk;
    }
  }

  /** Every (head, key) pair is summed exactly once, for any chunk sizes the bounds produce. */
  method DenseLogits(row: Query, keys: seq<KeyRow>, seqLen: nat) returns (logits: array<real>)
    requires Keys(row, keys)
    ensures fresh(logits) && logits.Length == |keys|
    ensures forall n :: 0 <= n < |keys| ==> logits[n] == HeadSum(row, keys[n], 0, |row.q|)
  {
    logits := new real[|keys|](_ => 0.0);
    var headChunk := HeadChunkSize(seqLen, |keys|, |row.q|);
    var hs := 0;
    while hs < |row.q|
      invariant 0 <= hs
      invariant fresh(logits) && logits.Length == |keys|
      invariant forall n :: 0 <= n < |keys| ==> logits[n] == HeadSum(row, keys[n], 0, Min(hs, |row.q|))
    {
      hide HeadSum;
      var he := Min(hs + headChunk, |row.q|);
      AddHeadChunk(row, keys, seqLen, hs, he, logits);
      forall n | 0 <= n < |keys|
        ensures HeadSum(row, keys[n], 0, he) == HeadSum(row, keys[n], 0, hs) + HeadSum(row, keys[n], hs, he)
      {
        HeadSumSplits(row, keys[n], 0, hs, he);
      }
      hs := hs + headChunk;
    }
  }

  /** Masks the logits outside the query's range [ks, ke). */
  function Clean(logits: seq<real>, ks: int, ke: int): (r: seq<Logit>)
    ensures |r| == |logits|
    ensures forall n :: 0 <= n < |r| ==> r[n] == if ks <= n < ke then Fin(logits[n]) else NegInf
  {
    seq(|logits|, n requires 0 <= n < |logits| => if ks <= n < ke then Fin(logits[n]) else NegInf)
  }

  /** The row of logits the indexer means for a query that sees the keys in [ks, ke). */
  ghost function LogitRow(row: Query, keys: seq<KeyRow>, ks: int, ke: int): (r: seq<Logit>)
    requires Keys(row, keys)
    ensures |r| == |keys|
    ensures forall n :: 0 <= n < |r| ==> r[n] == if ks <= n < ke then Fin(HeadSum(row, keys[n], 0, |row.q|)) else NegInf
  {
    seq(|keys|, n requires 0 <= n < |keys| => if ks <= n < ke then Fin(HeadSum(row, keys[n], 0, |row.q|)) else NegInf)
  }
}
