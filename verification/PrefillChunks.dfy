/** Metadata of a batch of decode requests followed by prefill requests: which request a token
    belongs to, and where each prefill request's keys go in the workspace of its chunk. */
module PrefillChunks {
  import opened Wrappers

  /** Token offsets of the requests: request r has the tokens [starts[r], starts[r+1]). */
  ghost predicate QueryStarts(starts: seq<nat>, numReqs: nat, numTokens: nat) {
    && |starts| == numReqs + 1 && starts[0] == 0
    && (forall r :: 0 <= r < numReqs ==> starts[r] <= starts[r + 1])
    && starts[numReqs] <= numTokens
  }

  lemma {:induction false} StartsAscend(starts: seq<nat>, a: nat, b: nat)
    requires a <= b < |starts| && forall r :: 0 <= r < |starts| - 1 ==> starts[r] <= starts[r + 1]
    ensures starts[a] <= starts[b]
    decreases b - a
  {
    if a < b { StartsAscend(starts, a + 1, b); }
  }

  /** Σ lens[t] for lo <= t < hi. */
  function SumOf(lens: seq<nat>, lo: nat, hi: nat): nat
    requires lo <= hi <= |lens|
    decreases hi - lo
  {
    if lo == hi then 0 else SumOf(lens, lo, hi - 1) + lens[hi - 1]
  }

  lemma {:induction false} SumSplits(lens: seq<nat>, lo: nat, mid: nat, hi: nat)
    requires lo <= mid <= hi <= |lens|
    ensures SumOf(lens, lo, hi) == SumOf(lens, lo, mid) + SumOf(lens, mid, hi)
    decreases hi - mid
  {
    if mid < hi { SumSplits(lens, lo, mid, hi - 1); }
  }

  // ---- token → request ----

  /** The request that token t belongs to, among the first n. */
  function ReqOf(starts: seq<nat>, n: nat, t: nat): (r: nat)
    requires n < |starts| && starts[0] == 0 && t < starts[n]
    ensures r < n && starts[r] <= t < starts[r + 1]
  {
    if starts[n - 1] <= t then n - 1 else ReqOf(starts, n - 1, t)
  }

  /** No other request has the token. */
  lemma {:induction false} OnlyOwner(starts: seq<nat>, n: nat, t: nat, q: nat)
    requires n < |starts| && starts[0] == 0 && t < starts[n]
    requires forall r :: 0 <= r < |starts| - 1 ==> starts[r] <= starts[r + 1]
    requires q < n && starts[q] <= t < starts[q + 1]
    ensures q == ReqOf(starts, n, t)
  {
    var r := ReqOf(starts, n, t);
    if q < r { StartsAscend(starts, q + 1, r); }
    if r < q { StartsAscend(starts, r + 1, q); }
  }

  /** The prefill id of token t when the requests up to n are known. */
  function PrefillId(starts: seq<nat>, numDecodes: nat, n: nat, t: nat): int
    requires numDecodes <= n < |starts| && starts[0] == 0
  {
    if starts[numDecodes] <= t < starts[n] then ReqOf(starts, n, t) - numDecodes else -1
  }

  lemma PrefillIdNext(starts: seq<nat>, numDecodes: nat, g: nat, t: nat)
    requires numDecodes <= g && g + 1 < |starts| && starts[0] == 0
    requires starts[numDecodes] <= starts[g] <= starts[g + 1]
    ensures PrefillId(starts, numDecodes, g + 1, t)
         == if starts[g] <= t < starts[g + 1] then g - numDecodes else PrefillId(starts, numDecodes, g, t)
  {}

  /** Every request's number, repeated for its tokens, in a zero-filled buffer. */
  method FillReqIds(starts: seq<nat>, numReqs: nat, numTokens: nat, buffer: array<int>)
    requires QueryStarts(starts, numReqs, numTokens) && numTokens <= buffer.Length
    modifies buffer
    ensures forall t :: 0 <= t < buffer.Length ==>
              buffer[t] == if t < starts[numReqs] then ReqOf(starts, numReqs, t) else 0
  {
    forall t | 0 <= t < buffer.Length {
      buffer[t] := 0;
    }
    for r := 0 to numReqs
      invariant forall t :: 0 <= t < buffer.Length ==>
                  buffer[t] == if t < starts[r] then ReqOf(starts, r, t) else 0
    {
      StartsAscend(starts, r + 1, numReqs);
      forall t | starts[r] <= t < starts[r + 1] {
        buffer[t] := r;
      }
    }
  }

  lemma PrefillIdNone(starts: seq<nat>, numDecodes: nat, t: nat)
    requires numDecodes < |starts| && starts[0] == 0
    ensures PrefillId(starts, numDecodes, numDecodes, t) == -1
  {}

  /** Assigns one slice of the ids. */
  method FillSlice(ids: array<int>, lo: nat, hi: nat, r: int)
    requires lo <= hi <= ids.Length
    modifies ids
    ensures forall t :: 0 <= t < ids.Length ==> ids[t] == if lo <= t < hi then r else old(ids[t])
  {
    forall t | lo <= t < hi {
      ids[t] := r;
    }
  }

  /** -1 on every token, then one slice per prefill request. */
  method FillPrefillIds(starts: seq<nat>, numDecodes: nat, numPrefills: nat, numTokens: nat) returns (ids: array<int>)
    requires QueryStarts(starts, numDecodes + numPrefills, numTokens)
    ensures fresh(ids) && ids.Length == numTokens
    ensures forall t :: 0 <= t < numTokens ==> ids[t] == PrefillId(starts, numDecodes, numDecodes + numPrefills, t)
  {
    hide PrefillId;
    ids := new int[numTokens](_ => -1);
    forall t | 0 <= t < numTokens
      ensures ids[t] == PrefillId(starts, numDecodes, numDecodes + 0, t)
    {
      PrefillIdNone(starts, numDecodes, t);
    }
    for r := 0 to numPrefills
      invariant fresh(ids) && ids.Length == numTokens
      invariant forall t :: 0 <= t < numTokens ==> ids[t] == PrefillId(starts, numDecodes, numDecodes + r, t)
    {
      var g := numDecodes + r;
      StartsAscend(starts, g + 1, numDecodes + numPrefills);
      StartsAscend(starts, numDecodes, g);
      FillSlice(ids, starts[g], starts[g + 1], r);
      forall t | 0 <= t < numTokens
        ensures ids[t] == PrefillId(starts, numDecodes, numDecodes + (r + 1), t)
      {
        PrefillIdNext(starts, numDecodes, g, t);
      }
    }
  }

  /** The two tables built side by side: a token of a decode request has prefill id -1, any other
      token its request counted from the first prefill request. */
  method BuildTokenTables(starts: seq<nat>, numDecodes: nat, numPrefills: nat, numTokens: nat, buffer: array<int>)
    returns (ids: array<int>)
    requires QueryStarts(starts, numDecodes + numPrefills, numTokens) && numTokens <= buffer.Length
    modifies buffer
    ensures ids.Length == numTokens
    ensures forall t :: 0 <= t < starts[numDecodes + numPrefills] ==>
              buffer[t] == ReqOf(starts, numDecodes + numPrefills, t)
    ensures forall t :: 0 <= t < starts[numDecodes + numPrefills] ==>
              && (ids[t] == -1 <==> t < starts[numDecodes])
              && ids[t] == (if buffer[t] < numDecodes then -1 else buffer[t] - numDecodes)
    ensures forall t :: starts[numDecodes + numPrefills] <= t < numTokens ==> ids[t] == -1 && buffer[t] == 0
  {
    var n := numDecodes + numPrefills;
    FillReqIds(starts, n, numTokens, buffer);
    ids := FillPrefillIds(starts, numDecodes, numPrefills, numTokens);
    forall t | 0 <= t < starts[n]
      ensures ReqOf(starts, n, t) < numDecodes <==> t < starts[numDecodes]
    {
      var r := ReqOf(starts, n, t);
      if r < numDecodes {
        StartsAscend(starts, r + 1, numDecodes);
      } else {
        StartsAscend(starts, numDecodes, r);
      }
    }
  }

  // ---- workspace chunks ----

  /** Chunk bounds as split_prefill_chunks delivers them: non-empty, contiguous, covering. */
  ghost predicate Covering(bounds: seq<(nat, nat)>, numPrefills: nat) {
    && (numPrefills > 0 ==> |bounds| > 0 && bounds[0].0 == 0 && bounds[|bounds| - 1].1 == numPrefills)
    && (numPrefills == 0 ==> bounds == [])
    && (forall i :: 0 <= i < |bounds| ==> bounds[i].0 < bounds[i].1 <= numPrefills)
    && (forall i :: 0 <= i < |bounds| - 1 ==> bounds[i].1 == bounds[i + 1].0)
  }

  /** One chunk: its requests, its slice of the batch's tokens, its workspace extent. */
  datatype Chunk = Chunk(reqStart: nat, reqEnd: nat, tokenStart: nat, tokenEnd: nat, totalLen: nat)

  /** Workspace start of request r when its chunk starts at request c. */
  ghost predicate StartsFrom(ws: seq<int>, lens: seq<nat>, c: nat, e: nat)
    requires c <= e <= |lens| && |ws| == |lens|
  {
    forall r :: c <= r < e ==> ws[r] == SumOf(lens, c, r)
  }

  ghost predicate ChunkIs(chunk: Chunk, bound: (nat, nat), starts: seq<nat>, numDecodes: nat, lens: seq<nat>) {
    && bound.0 <= bound.1 <= |lens| && numDecodes + bound.1 < |starts|
    && chunk == Chunk(bound.0, bound.1, starts[numDecodes + bound.0], starts[numDecodes + bound.1],
                      SumOf(lens, bound.0, bound.1))
  }

  /** Shifts one range of the starts down, in place. */
  method SubtractRange(ws: array<int>, lo: nat, hi: nat, offset: int)
    requires lo <= hi <= ws.Length
    modifies ws
    ensures forall r :: 0 <= r < ws.Length ==> ws[r] == old(ws[r]) - (if lo <= r < hi then offset else 0)
  {
    for r := lo to hi
      invariant forall k :: 0 <= k < ws.Length ==> ws[k] == old(ws[k]) - (if lo <= k < r then offset else 0)
    {
      ws[r] := ws[r] - offset;
    }
  }

  /** Exclusive cumulative sums, starting from zeros. */
  method CumulativeStarts(lens: seq<nat>) returns (ws: array<int>)
    ensures fresh(ws) && ws.Length == |lens|
    ensures forall k :: 0 <= k < |lens| ==> ws[k] == SumOf(lens, 0, k)
  {
    ws := new int[|lens|](_ => 0);
    if |lens| > 0 {
      for r := 1 to |lens|
        invariant fresh(ws) && ws.Length == |lens|
        invariant forall k :: 0 <= k < r ==> ws[k] == SumOf(lens, 0, k)
      {
        ws[r] := ws[r - 1] + lens[r - 1];
      }
    }
  }

  lemma {:induction false} BoundsAscend(bounds: seq<(nat, nat)>, n: nat, k: nat, i: nat)
    requires Covering(bounds, n) && k < i < |bounds|
    ensures bounds[k].1 <= bounds[i].0
    decreases i - k
  {
    if k + 1 < i { BoundsAscend(bounds, n, k + 1, i); }
  }

  lemma {:induction false} RelativeStarts(lens: seq<nat>, c: nat, e: nat)
    requires c <= e <= |lens|
    ensures forall r :: c <= r < e ==> SumOf(lens, 0, r) - SumOf(lens, 0, c) == SumOf(lens, c, r)
  {
    forall r | c <= r < e
      ensures SumOf(lens, 0, r) - SumOf(lens, 0, c) == SumOf(lens, c, r)
    {
      SumSplits(lens, 0, c, r);
    }
  }

  /** Where the requests not yet adjusted begin. */
  ghost function Done(bounds: seq<(nat, nat)>, i: nat): nat
    requires i <= |bounds|
  {
    if i == 0 then 0 else bounds[i - 1].1
  }

  /** What the chunk loop keeps: the first i chunks have relative starts, the rest global ones. */
  ghost predicate Adjusted(ws: seq<int>, lens: seq<nat>, bounds: seq<(nat, nat)>, i: nat) {
    && |ws| == |lens| && i <= |bounds|
    && (forall k :: 0 <= k < i ==> bounds[k].0 <= bounds[k].1 <= |lens| && StartsFrom(ws, lens, bounds[k].0, bounds[k].1))
    && (forall r :: Done(bounds, i) <= r < |lens| ==> ws[r] == SumOf(lens, 0, r))
  }

  /** Subtracting a chunk's first start from its own range touches no other chunk. */
  lemma AdjustNext(before: seq<int>, after: seq<int>, lens: seq<nat>, bounds: seq<(nat, nat)>, i: nat)
    requires Covering(bounds, |lens|) && i < |bounds| && Adjusted(before, lens, bounds, i) && |after| == |lens|
    requires forall r :: 0 <= r < |lens| ==>
               after[r] == before[r] - (if bounds[i].0 <= r < bounds[i].1 then before[bounds[i].0] else 0)
    ensures Adjusted(after, lens, bounds, i + 1)
  {
    var (lo, hi) := bounds[i];
    assert Done(bounds, i) == lo;
    RelativeStarts(lens, lo, hi);
    forall k | 0 <= k < i
      ensures StartsFrom(after, lens, bounds[k].0, bounds[k].1)
    {
      BoundsAscend(bounds, |lens|, k, i);
    }
  }

  lemma ChunkInPlainTerms(ws: seq<int>, chunk: Chunk, bound: (nat, nat), starts: seq<nat>, numDecodes: nat,
                          lens: seq<nat>)
    requires ChunkIs(chunk, bound, starts, numDecodes, lens) && bound.0 < bound.1
    requires |ws| == |lens| && StartsFrom(ws, lens, bound.0, bound.1)
    ensures chunk.reqStart < chunk.reqEnd <= |lens| && numDecodes + chunk.reqEnd < |starts|
    ensures chunk.tokenStart == starts[numDecodes + chunk.reqStart]
    ensures chunk.tokenEnd == starts[numDecodes + chunk.reqEnd]
    ensures ws[chunk.reqStart] == 0
    ensures forall r :: chunk.reqStart <= r < chunk.reqEnd - 1 ==> ws[r] + lens[r] == ws[r + 1]
    ensures ws[chunk.reqEnd - 1] + lens[chunk.reqEnd - 1] == chunk.totalLen
  {
    hide SumOf, StartsFrom;
    WorkspaceTiles(ws, lens, bound.0, bound.1);
  }

  /** Global cumulative starts, made relative to each chunk in place. */
  method AdjustChunks(lens: seq<nat>, starts: seq<nat>, numDecodes: nat, numTokens: nat, bounds: seq<(nat, nat)>)
    returns (ws: array<int>, chunks: seq<Chunk>)
    requires QueryStarts(starts, numDecodes + |lens|, numTokens) && Covering(bounds, |lens|)
    ensures ws.Length == |lens| && |chunks| == |bounds|
    ensures forall i :: 0 <= i < |bounds| ==> ChunkIs(chunks[i], bounds[i], starts, numDecodes, lens)
    ensures forall i :: 0 <= i < |bounds| ==> StartsFrom(ws[..], lens, bounds[i].0, bounds[i].1)
  {
    ws := CumulativeStarts(lens);
    chunks := [];
    for i := 0 to |bounds|
      invariant fresh(ws) && ws.Length == |lens| && |chunks| == i
      invariant forall k :: 0 <= k < i ==> ChunkIs(chunks[k], bounds[k], starts, numDecodes, lens)
      invariant Adjusted(ws[..], lens, bounds, i)
    {
      hide SumOf, Adjusted;
      var (lo, hi) := bounds[i];
      ghost var before := ws[..];
      var offset := ws[lo];
      SubtractRange(ws, lo, hi, offset);
      AdjustNext(before, ws[..], lens, bounds, i);
      chunks := chunks + [Chunk(lo, hi, starts[numDecodes + lo], starts[numDecodes + hi], SumOf(lens, lo, hi))];
    }
  }

  /** Every chunk has its requests' tokens, and its requests' key ranges follow one another from 0 to
      its total length. */
  method BuildChunks(lens: seq<nat>, starts: seq<nat>, numDecodes: nat, numTokens: nat, bounds: seq<(nat, nat)>)
    returns (ws: array<int>, chunks: seq<Chunk>)
    requires QueryStarts(starts, numDecodes + |lens|, numTokens) && Covering(bounds, |lens|)
    ensures ws.Length == |lens| && |chunks| == |bounds|
    ensures forall i :: 0 <= i < |bounds| ==> ChunkIs(chunks[i], bounds[i], starts, numDecodes, lens)
    ensures forall i :: 0 <= i < |bounds| ==> StartsFrom(ws[..], lens, bounds[i].0, bounds[i].1)
    ensures forall i :: 0 <= i < |chunks| ==>
              && (chunks[i].reqStart, chunks[i].reqEnd) == bounds[i]
              && chunks[i].reqStart < chunks[i].reqEnd <= |lens|
              && chunks[i].tokenStart == starts[numDecodes + chunks[i].reqStart]
              && chunks[i].tokenEnd == starts[numDecodes + chunks[i].reqEnd]
    ensures forall i :: 0 <= i < |chunks| ==>
              && ws[chunks[i].reqStart] == 0
              && (forall r :: chunks[i].reqStart <= r < chunks[i].reqEnd - 1 ==> ws[r] + lens[r] == ws[r + 1])
              && ws[chunks[i].reqEnd - 1] + lens[chunks[i].reqEnd - 1] == chunks[i].totalLen
  {
    hide SumOf, StartsFrom, Covering;
    ws, chunks := AdjustChunks(lens, starts, numDecodes, numTokens, bounds);
    assert forall i :: 0 <= i < |bounds| ==> bounds[i].0 < bounds[i].1 by { BoundsNonEmpty(bounds, |lens|); }
    ghost var w := ws[..];
    forall i | 0 <= i < |chunks|
      ensures chunks[i].reqStart < chunks[i].reqEnd <= |lens| && numDecodes + chunks[i].reqEnd < |starts|
      ensures chunks[i].tokenStart == starts[numDecodes + chunks[i].reqStart]
      ensures chunks[i].tokenEnd == starts[numDecodes + chunks[i].reqEnd]
      ensures w[chunks[i].reqStart] == 0
      ensures forall r :: chunks[i].reqStart <= r < chunks[i].reqEnd - 1 ==> w[r] + lens[r] == w[r + 1]
      ensures w[chunks[i].reqEnd - 1] + lens[chunks[i].reqEnd - 1] == chunks[i].totalLen
    {
      ChunkInPlainTerms(w, chunks[i], bounds[i], starts, numDecodes, lens);
    }
  }

  lemma BoundsNonEmpty(bounds: seq<(nat, nat)>, n: nat)
    requires Covering(bounds, n)
    ensures forall i :: 0 <= i < |bounds| ==> bounds[i].0 < bounds[i].1
  {}

  /** Where ranges follow one another from 0 to a total, every row below it is in exactly one. */
  lemma {:induction false} ChunkRowOwner(ws: seq<int>, lens: seq<nat>, c: nat, e: nat, total: nat,
                                         x: nat) returns (r: nat)
    requires c < e <= |lens| && |ws| == |lens| && x < total
    requires ws[c] == 0 && (forall r :: c <= r < e - 1 ==> ws[r] + lens[r] == ws[r + 1])
    requires ws[e - 1] + lens[e - 1] == total
    ensures c <= r < e && ws[r] <= x < ws[r] + lens[r]
    ensures forall q :: c <= q < e && ws[q] <= x < ws[q] + lens[q] ==> q == r
    decreases e
  {
    if ws[e - 1] <= x {
      r := e - 1;
      forall q | c <= q < e - 1
        ensures ws[q] + lens[q] <= ws[e - 1]
      {
        RangesAscend(ws, lens, c, e, q, e - 1);
      }
    } else {
      RangesAscend(ws, lens, c, e, c, e - 1);
      r := ChunkRowOwner(ws, lens, c, e - 1, ws[e - 1], x);
    }
  }

  lemma {:induction false} RangesAscend(ws: seq<int>, lens: seq<nat>, c: nat, e: nat, q: nat, k: nat)
    requires c <= q <= k < e <= |lens| && |ws| == |lens|
    requires forall r :: c <= r < e - 1 ==> ws[r] + lens[r] == ws[r + 1]
    ensures ws[q] <= ws[k] && (q < k ==> ws[q] + lens[q] <= ws[k])
    decreases k - q
  {
    if q < k { RangesAscend(ws, lens, c, e, q + 1, k); }
  }

  /** Inside a chunk the requests' key ranges tile the workspace: they follow one another without
      gap or overlap from 0 to the chunk's total. */
  lemma {:induction false} WorkspaceTiles(ws: seq<int>, lens: seq<nat>, c: nat, e: nat)
    requires c < e <= |lens| && |ws| == |lens| && StartsFrom(ws, lens, c, e)
    ensures ws[c] == 0 && ws[e - 1] + lens[e - 1] == SumOf(lens, c, e)
    ensures forall r :: c <= r < e - 1 ==> ws[r] + lens[r] == ws[r + 1]
  {}

  /** So every workspace row of a chunk belongs to exactly one of its requests. */
  lemma WorkspaceRowOwner(ws: seq<int>, chunk: Chunk, bound: (nat, nat), starts: seq<nat>, numDecodes: nat,
                          lens: seq<nat>,
                          x: nat)
    returns (r: nat)
    requires ChunkIs(chunk, bound, starts, numDecodes, lens) && bound.0 < bound.1
    requires |ws| == |lens| && StartsFrom(ws, lens, bound.0, bound.1)
    requires x < chunk.totalLen
    ensures chunk.reqStart <= r < chunk.reqEnd <= |lens| && ws[r] <= x < ws[r] + lens[r]
    ensures forall q :: chunk.reqStart <= q < chunk.reqEnd && ws[q] <= x < ws[q] + lens[q] ==> q == r
  {
    ChunkInPlainTerms(ws, chunk, bound, starts, numDecodes, lens);
    r := ChunkRowOwner(ws, lens, chunk.reqStart, chunk.reqEnd, chunk.totalLen, x);
  }

  /** The chunks' token slices tile exactly the prefill tokens. */
  lemma TokenSlicesTile(chunks: seq<Chunk>, bounds: seq<(nat, nat)>, starts: seq<nat>, numDecodes: nat, lens: seq<nat>)
    requires |lens| > 0 && |starts| == numDecodes + |lens| + 1
    requires Covering(bounds, |lens|) && |chunks| == |bounds|
    requires forall i :: 0 <= i < |bounds| ==> ChunkIs(chunks[i], bounds[i], starts, numDecodes, lens)
    ensures |chunks| > 0 && chunks[0].tokenStart == starts[numDecodes]
    ensures chunks[|chunks| - 1].tokenEnd == starts[numDecodes + |lens|]
    ensures forall i :: 0 <= i < |chunks| - 1 ==> chunks[i].tokenEnd == chunks[i + 1].tokenStart
  {}

  lemma {:induction false} BoundOf(bounds: seq<(nat, nat)>, n: nat, r: nat, i: nat) returns (k: nat)
    requires Covering(bounds, n) && i < |bounds| && bounds[i].0 <= r < n
    ensures i <= k < |bounds| && bounds[k].0 <= r < bounds[k].1
    decreases |bounds| - i
  {
    k := i;
    if bounds[i].1 <= r {
      k := BoundOf(bounds, n, r, i + 1);
    }
  }

  /** The batch and its chunks as the chunk loop leaves them. */
  ghost predicate Chunked(chunks: seq<Chunk>, bounds: seq<(nat, nat)>, starts: seq<nat>, numDecodes: nat, lens: seq<nat>) {
    && |starts| == numDecodes + |lens| + 1 && (forall r :: 0 <= r < |starts| - 1 ==> starts[r] <= starts[r + 1])
    && Covering(bounds, |lens|) && |chunks| == |bounds|
    && (forall i :: 0 <= i < |bounds| ==> ChunkIs(chunks[i], bounds[i], starts, numDecodes, lens))
  }

  lemma ChunksApart(chunks: seq<Chunk>, bounds: seq<(nat, nat)>, starts: seq<nat>, numDecodes: nat, lens: seq<nat>,
                    k: nat, i: nat)
    requires Chunked(chunks, bounds, starts, numDecodes, lens) && k < i < |chunks|
    ensures chunks[k].reqEnd <= chunks[i].reqStart && chunks[k].tokenEnd <= chunks[i].tokenStart
  {
    hide SumOf;
    BoundsAscend(bounds, |lens|, k, i);
    assert ChunkIs(chunks[k], bounds[k], starts, numDecodes, lens);
    assert ChunkIs(chunks[i], bounds[i], starts, numDecodes, lens);
    StartsAscend(starts, numDecodes + bounds[k].1, numDecodes + bounds[i].0);
  }

  lemma ChunkHolds(chunks: seq<Chunk>, bounds: seq<(nat, nat)>, starts: seq<nat>, numDecodes: nat, lens: seq<nat>,
                   i: nat, g: nat, t: nat)
    requires Chunked(chunks, bounds, starts, numDecodes, lens) && i < |chunks|
    requires bounds[i].0 <= g - numDecodes < bounds[i].1 && g + 1 < |starts| && starts[g] <= t < starts[g + 1]
    ensures chunks[i].reqStart <= g - numDecodes < chunks[i].reqEnd
    ensures chunks[i].tokenStart <= t < chunks[i].tokenEnd
  {
    hide SumOf;
    assert ChunkIs(chunks[i], bounds[i], starts, numDecodes, lens);
    StartsAscend(starts, numDecodes + bounds[i].0, g);
    StartsAscend(starts, g + 1, numDecodes + bounds[i].1);
  }

  /** So every prefill token lies in the slice of exactly one chunk, and that is the one chunk whose
      requests include the token's. */
  lemma TokenChunk(chunks: seq<Chunk>, bounds: seq<(nat, nat)>, starts: seq<nat>, numDecodes: nat, lens: seq<nat>,
                   t: nat)
    returns (i: nat)
    requires Chunked(chunks, bounds, starts, numDecodes, lens) && starts[0] == 0
    requires starts[numDecodes] <= t < starts[numDecodes + |lens|]
    ensures i < |chunks| && chunks[i].tokenStart <= t < chunks[i].tokenEnd
    ensures chunks[i].reqStart <= PrefillId(starts, numDecodes, numDecodes + |lens|, t) < chunks[i].reqEnd
    ensures forall k :: 0 <= k < |chunks| && chunks[k].tokenStart <= t < chunks[k].tokenEnd ==> k == i
    ensures forall k :: 0 <= k < |chunks| ==>
              (chunks[k].reqStart <= PrefillId(starts, numDecodes, numDecodes + |lens|, t) < chunks[k].reqEnd ==> k == i)
  {
    var g := ReqOf(starts, numDecodes + |lens|, t);
    if g < numDecodes { StartsAscend(starts, g + 1, numDecodes); }
    assert PrefillId(starts, numDecodes, numDecodes + |lens|, t) == g - numDecodes;
    i := BoundOf(bounds, |lens|, g - numDecodes, 0);
    ChunkHolds(chunks, bounds, starts, numDecodes, lens, i, g, t);
    hide Chunked;
    forall k | 0 <= k < |chunks| && k != i
      ensures chunks[k].tokenEnd <= t || t < chunks[k].tokenStart
      ensures chunks[k].reqEnd <= g - numDecodes || g - numDecodes < chunks[k].reqStart
    {
      if k < i {
        ChunksApart(chunks, bounds, starts, numDecodes, lens, k, i);
      } else {
        ChunksApart(chunks, bounds, starts, numDecodes, lens, i, k);
      }
    }
  }
}
