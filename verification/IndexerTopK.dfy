/** The two streaming indexer loops: top-K over a row of logits that is never materialised. */
module IndexerTopK {
  import opened Wrappers
  import opened StrictTopK
  import opened IndexerLogits
  import opened PagedLogits
  import opened StreamingTopK
  import opened TopKScores

  /** Logits of one key chunk, head chunk after head chunk, masked to the query's range. */
  method ChunkLogits(row: Query, keys: seq<KeyRow>, ks: int, ke: int, headChunk: nat, start: nat, end: nat)
    returns (chunk: seq<Logit>)
    requires Keys(row, keys) && start <= end <= |keys|
    requires headChunk > 0
    ensures chunk == LogitRow(row, keys, ks, ke)[start..end]
  {
    var part := keys[start..end];
    var logits := new real[end - start](_ => 0.0);
    var hs := 0;
    while hs < |row.q|
      invariant 0 <= hs
      invariant fresh(logits) && logits.Length == end - start
      invariant forall n :: 0 <= n < end - start ==> logits[n] == HeadSum(row, part[n], 0, Min(hs, |row.q|))
    {
      hide HeadSum;
      var he := Min(hs + headChunk, |row.q|);
      AddTile(row, part, hs, he, 0, |part|, logits);
      forall n | 0 <= n < end - start
        ensures HeadSum(row, part[n], 0, he) == HeadSum(row, part[n], 0, hs) + HeadSum(row, part[n], hs, he)
      {
        HeadSumSplits(row, part[n], 0, hs, he);
      }
      hs := hs + headChunk;
    }
    chunk := Clean(logits[..], ks - start, ke - start);
    assert forall n :: 0 <= n < end - start ==> part[n] == keys[start + n];
  }

  /** The dense loop: after it, the row kept is a top-K of all logits in [ks, ke). */
  method MqaTopK(row: Query, keys: seq<KeyRow>, ks: int, ke: int, seqLen: nat, K: nat, out: array<int>)
    returns (ghost best: seq<Logit>)
    requires Keys(row, keys) && out.Length == K
    modifies out
    ensures Kept(best, out[..], LogitRow(row, keys, ks, ke), K)
    ensures BestSet(KeptSet(out[..]), LogitRow(row, keys, ks, ke), K)
    ensures CountKept(out[..]) == Min(K, |FinitePositions(LogitRow(row, keys, ks, ke))|)
  {
    hide Kept, BestSet, CountKept;
    ghost var all := LogitRow(row, keys, ks, ke);
    FillMissing(out);
    var headChunk := HeadChunkSize(seqLen, |keys|, |row.q|);
    var kChunk := KeyChunkSize(seqLen, |keys|, headChunk);
    var width := Min(K, kChunk);
    var buffers := new Buffers(K, width);
    EmptyKept(K);
    assert all[..0] == [];
    var start := 0;
    while start < |keys|
      invariant 0 <= start
      invariant fresh(buffers.Repr()) && buffers.Shaped(K, width)
      invariant Kept(buffers.bestValues[..], out[..], all[..Min(start, |keys|)], K)
    {
      var end := Min(start + kChunk, |keys|);
      assert 4 * (headChunk * seqLen * (end - start)) <= Max(67108864, 4 * seqLen) by {
        TileWithinBudget(seqLen, |keys|, |row.q|, headChunk, headChunk, end - start);
      }
      var chunk := ChunkLogits(row, keys, ks, ke, headChunk, start, end);
      buffers.Absorb(chunk, start, K, width, out, all[..start]);
      assert all[..end] == all[..start] + chunk;
      start := start + kChunk;
    }
    assert all[..|keys|] == all;
    best := buffers.bestValues[..];
    KeptIsBest(best, out[..], all, K);
    StreamCount(best, out[..], all, K);
  }

  /** The paged loop over windows of the maximal length: a top-K of the dense row of the keys that the
      pages hold. A zero K or length returns early. */
  method PagedTopK(row: Query, p: Paged, contextLen: int, maxModelLen: nat, K: nat, chunkSize: nat,
                   blockN: nat, blockH: nat, blockD: nat, out: array<int>, ghost keys: seq<KeyRow>)
    returns (ghost best: seq<Logit>)
    requires Keys(row, keys) && |keys| == maxModelLen && Stores(p, keys, contextLen)
    requires Backed(row, p, contextLen) && chunkSize > 0 && blockN > 0 && blockH > 0 && blockD > 0
    requires out.Length == K
    modifies out
    ensures Kept(best, out[..], LogitRow(row, keys, 0, contextLen), K)
    ensures BestSet(KeptSet(out[..]), LogitRow(row, keys, 0, contextLen), K)
    ensures CountKept(out[..]) == Min(K, |FinitePositions(LogitRow(row, keys, 0, contextLen))|)
  {
    hide Kept, BestSet, CountKept, LogitAt, Backed;
    ghost var all := Window(row, p, contextLen, 0, maxModelLen);
    PagedIsDense(row, p, contextLen, keys);
    FillMissing(out);
    EmptyKept(K);
    if K == 0 || maxModelLen == 0 {
      best := seq(K, _ => NegInf);
      NothingToKeep(out[..], all, K);
      KeptIsBest(best, out[..], all, K);
      StreamCount(best, out[..], all, K);
      return;
    }
    var width := Min(K, chunkSize);
    var buffers := new Buffers(K, width);
    assert all[..0] == [];
    var start := 0;
    while start < maxModelLen
      invariant 0 <= start
      invariant fresh(buffers.Repr()) && buffers.Shaped(K, width)
      invariant Kept(buffers.bestValues[..], out[..], all[..Min(start, maxModelLen)], K)
    {
      var count := Min(chunkSize, maxModelLen - start);
      var window := RowwiseWindow(row, p, contextLen, start, count, blockN, blockH, blockD);
      var chunk := window[..];
      assert all[..start + count] == all[..start] + chunk;
      buffers.Absorb(chunk, start, K, width, out, all[..start]);
      start := start + chunkSize;
    }
    assert all[..maxModelLen] == all;
    best := buffers.bestValues[..];
    KeptIsBest(best, out[..], all, K);
    StreamCount(best, out[..], all, K);
  }

  lemma NothingToKeep(out: seq<int>, seen: seq<Logit>, K: nat)
    requires out == seq(K, _ => -1) && (K == 0 || seen == [])
    ensures Kept(seq(K, _ => NegInf), out, seen, K)
  {}
}
