# Exactness of the sharded sparse-attention path

The serving stack in this repository splits a model's KV cache over N ranks, interleaved position by
position (`owner(p) = p % N`, `local(p) = p // N`). In every decode step each rank scores its own keys
with the indexer, the ranks agree on a global top-K, each rank attends to the selected keys it owns with
an online softmax, and the partial outputs are recombined through their log-sum-exps. A mistake in any of
these steps does not crash; it silently changes the model's output. The repository checks the steps on a
few finite cases. This project states them for every input and proves them.

What is proved, in short:

- **One sharded decode step equals the unsharded step** (`DecodeStep.StepsAgree`): for every number of
  ranks, K, key set, order of gathering and tile width, including ranks that own no selected key.
  Exactly when nothing at all is selected the recombination has no value (every lse is -inf), where the
  unsharded step returns 0.
- **Selection**: two stable argsorts realise the strict order (score descending, position ascending); the
  union of local selections, the older gather-everything path and the reference all select the same
  ordered list, per causal prefix too; the ranks' write-backs partition it; the ragged prefill index is a
  permutation onto the per-request order.
- **Selection under any tie-break** (`AnyTies`): with a plain top-k on every rank and over the gathered
  candidates, the union still selects a best set of all logits; that set is the strict one exactly when the
  K-th score is not tied, and then the sharded step still equals the strict unsharded one.
- **Softmax**: the one-at-a-time, tiled, resumed, split, chunked, sink-first, two-pass, finished and merged
  forms all denote Σ w(sᵢ)·vᵢ / (Σ w(sᵢ) + w(sink)).
- **Streaming top-K** under any tie-break of `torch.topk`, with reused and swapped buffers.
- **Indexer logits**: every tiling (dense, rowwise, two-dimensional, torch loop) is the plain sum.
- **Checkpoint pruning** and **prefill workspace chunking**: relabelling, slicing, offsets, prefix sums.

How values are modelled. Arithmetic is exact. An attention score is a float32, hence an integer multiple
of one smallest unit, so scores are integers and exp is a function w from integers to positive reals with
w(a+b) = w(a)·w(b) and w(n) ≤ 1 for n ≤ 0; `Weights` shows these functions are exactly the powers bⁿ with
b ≥ 1, so nothing is postulated. A log-sum-exp is held through its exponential, so no logarithm is needed.
-inf is a case of a datatype, and NaN is `None`. Kernels and drivers are methods with the source's loops;
each ends in the state given by one closed form (`Softmax.Closed`), and the meaning of that form is proved
separately.

Where the code behaves differently from what one might expect:

- Merging two empty shards gives NaN (-inf minus -inf). So the result of merging shards pairwise does depend
  on the order when shards are empty: `Recombine.EmptyPairPoisons` is a concrete case and
  `Recombine.MergeTreeExact` the exact condition.
- The split d512 path lets an invalid index below `lens` take part with score 0, where the scalar kernels
  skip it. `ChunkedAttention.SplitAgreesIff` is the exact condition for agreement, and
  `ChunkedAttention.SplitOutput` says what comes out otherwise; `ChunkedAttention.SentinelCounted` is a
  concrete case.
- The two-pass sink kernel and the subset merges have no value exactly when there is neither a sink nor a
  candidate, where the one-pass kernels return 0.
- `row_slice` does not check that a kept expert is a row of the tensor; past the end it copies nothing, and
  the written bytes are fewer than the written shape. `PruneCheckpoint.SliceFillsShape` is the exact condition,
  `PruneCheckpoint.SliceCutShort` a concrete case.
- The structural check rejects a shard in which a non-empty tensor's name is used again later, because the
  header keeps only the last entry. `Safetensors.WrittenAcceptedIff` is the exact condition,
  `Safetensors.DuplicateRejected` a case. A pruned checkpoint has no such shard.
- The pruning script's header says that ratio mode drops the experts of lowest bias; the code keeps them and
  drops those of highest bias. The model follows the code.
- Clamping the denominator at 1e-30 before its logarithm never changes it.

`dafny verify dfyconfig.toml` checks the whole project. No lemma relies on automatic induction: every proof by
induction is written out.

## Model

| member | source | states |
|---|---|---|
| DecodeStep.StepsAgree | 8node-nvfp4/validate_lse_recombine.py:4-11 | the sharded step returns what the unsharded one returns whenever it returns a number, which it does iff K > 0 and some logit is finite; otherwise the unsharded one returns 0 |
| DecodeStep.DistributedStep | 8node-nvfp4/validate_perf2_decode.py:34-55 | local selections, union, write-back, one attention per shard and recombination give the attention over the strict global top-K; no result iff nothing is selected |
| DecodeStep.UnshardedStep | 8node-nvfp4/validate_perf2_decode.py:58-68 | one selection and one attention over all keys give the same attention over the strict global top-K |
| DecodeStep.AttendShard | 8node-nvfp4/kernels/sm12x_sparse_mla_attn.py:820-842 | a shard's output and lse are the exact partial of its valid candidates; an empty one gives 0 and -inf |
| DecodeStep.AttendSelected | 8node-nvfp4/validate_lse_recombine.py:4-11 | for any selected rows, write-back, per-shard attention and recombination give the attention over them; NaN iff there are none |
| DecodeStep.ShardLane | 8node-nvfp4/validate_dcp_reassembly.py:27-31 | rank r's slot j scans the global key of selected slot j iff r owns it, and is masked otherwise |
| DecodeStep.ShardsSum | 8node-nvfp4/validate_dcp_reassembly.py:55-67 | no selected slot is counted twice or missed by the ranks, for any quantity summed over the lanes |
| DecodeStep.ShardsCarrySelection | 8node-nvfp4/validate_lse_recombine.py:48-54 | all shards together carry the numerator and denominator of the whole selection, and are all empty iff it is |
| StrictTopK.TopKUnique | 8node-nvfp4/validate_perf2_decode.py:17-20 | the strict selection of k candidates is unique as an ordered list |
| StrictTopK.ArgsortStable | 8node-nvfp4/validate_perf2_decode.py:22-24 | a permutation, sorted by the keys, equal keys in their original order |
| StrictTopK.TwoSorts | 8node-nvfp4/validate_perf2_decode.py:21-25 | an argsort by position and then one by score order the valid lanes lexicographically and put them before every invalid lane |
| StrictTopK.CutIsTopK | 8node-nvfp4/validate_perf2_decode.py:25-30 | cutting such an order at k yields the strict selection of the valid lanes, with -inf and -1 behind it |
| StrictTopK.StrictTopKRow | 8node-nvfp4/validate_perf2_decode.py:17-31 | the selected scores and positions depend only on the set of valid candidates: its k best in strict order, then -inf and -1 |
| CandidateUnion.UnionSelects | 8node-nvfp4/validate_perf2_decode.py:5-8 | selecting among the local top-Ks of any cover of the candidates equals selecting among all of them, ties and short shards included |
| CandidateUnion.StridedLanes | 8node-nvfp4/validate_perf2_decode.py:42-44 | the columns r, r+N, ... carry exactly the candidates rank r owns, at their global positions |
| CandidateUnion.LocalSelection | 8node-nvfp4/validate_perf2_decode.py:45-49 | a rank's fixed-size row is its own strict top-K, padded with -inf and -1 |
| CandidateUnion.SelectDecode | 8node-nvfp4/validate_perf2_decode.py:34-55 | for any order of the ranks the union selects the global strict top-K as an ordered list padded with -1 |
| CandidateUnion.SelectBrute | 8node-nvfp4/validate_perf2_decode.py:58-68 | the reference selects the same list, also when there are fewer than K columns |
| CandidateUnion.OwnedLanes | 8node-nvfp4/validate_perf2_prefill.py:59-63 | masking what is not owned or not visible leaves exactly the rank's candidates of the causal prefix |
| CandidateUnion.SelectPrefill | 8node-nvfp4/validate_perf2_prefill.py:51-70 | per query the union selects the strict top-K of the causal prefix [0, ke) |
| CandidateUnion.SelectPrefillBrute | 8node-nvfp4/validate_perf2_prefill.py:73-81 | and so does the prefill reference |
| Reassembly.ReassembleRestores | 8node-nvfp4/validate_dcp_reassembly.py:19-24 | view, transpose and flatten turn the rank-major gather of padded shards back into the global row, -inf past its end |
| Reassembly.SelectReassembled | 8node-nvfp4/validate_dcp_reassembly.py:19-24 | the older path selects the same ordered list as the candidate union |
| Reassembly.WritebackSlot | 8node-nvfp4/validate_dcp_reassembly.py:27-31 | exactly the owner keeps a selected position, and its local row maps back to it; the sentinel stays a sentinel |
| Reassembly.WritebackPartitions | 8node-nvfp4/validate_dcp_reassembly.py:55-67 | the ranks' rows mapped back by c·N + r partition the global selection |
| ReassemblyIndex.OffsetTables | 8node-nvfp4/validate_dcp_reassembly.py:78-84 | the tables hold the exclusive cumulative sums over ranks and, per rank, over requests |
| ReassemblyIndex.BuildReassemblyIndex | 8node-nvfp4/validate_dcp_reassembly.py:70-93 | the loop over requests, empty ones skipped, builds the concatenation of every request's entries |
| ReassemblyIndex.EntryPoints | 8node-nvfp4/validate_dcp_reassembly.py:88-92 | entry p of request q points at key p of request q in the gathered order |
| ReassemblyIndex.IndexIsPermutation | 8node-nvfp4/validate_dcp_reassembly.py:96-119 | for every N and list of lengths the index permutes all gathered rows into per-request ascending key order |
| Ownership.Localised | 8node-nvfp4/validate_perf2_prefill.py:90-93 | lp·N + r is owned by r and has local row lp: the local-to-global map is injective |
| Ownership.OwnIff | 8node-nvfp4/validate_perf2_prefill.py:90-106 | local row lp is among the counted ones iff its global position is below c |
| Ownership.CountsAgree | 8node-nvfp4/validate_dcp_reassembly.py:100-102 | the three formulas in use for the owned count are equal |
| Ownership.OwnedIsImage | 8node-nvfp4/validate_perf2_prefill.py:99-101 | {lp·N + r : lp < own count} is exactly {p < c : p % N = r} |
| Ownership.OwnCounts | 8node-nvfp4/validate_perf2_prefill.py:84-87 | the formula is the size of {p < c : p % N = r} |
| Ownership.OwnSumsToAll | 8node-nvfp4/validate_perf2_prefill.py:84-87 | the ranks' counts add up to c |
| Weights.PowersAreWeights | 8node-nvfp4/kernels/sparse_mla_kernels.py:1034-1035 | every integer power function of base at least 1 has the laws of the exponential that the kernels rely on |
| Weights.WeightsArePowers | 8node-nvfp4/kernels/sparse_mla_kernels.py:1034-1035 | and nothing else has them |
| Softmax.Rescale | 8node-nvfp4/kernels/sparse_mla_kernels.py:1034-1037 | moving the reference maximum rescales numerator and denominator by one common factor |
| Softmax.Extend | 8node-nvfp4/kernels/sm12x_sparse_mla_attn.py:556-578 | rescaling the running sums and adding a tile's gives the closed form of the longer list, for tiles of any width |
| Softmax.MergeClosed | 8node-nvfp4/kernels/sparse_mla_kernels.py:2086-2111 | merging two finished states, empty ones included, gives the state of the joined list |
| Softmax.DenBounds | 8node-nvfp4/kernels/sm12x_sparse_mla_attn.py:556-572 | at a shift at or above the maximum the denominator lies between the largest weight and the number of candidates |
| Softmax.ClosedDenominator | 8node-nvfp4/kernels/sm12x_sparse_mla_attn.py:821-827 | an all-invalid list leaves (-inf, 0, 0); otherwise the denominator is at least 1 and at most the number of candidates |
| Softmax.Normalise | 8node-nvfp4/kernels/sparse_mla_kernels.py:3235-3256 | accumulator over denominator is Σ w(sᵢ)·vᵢ / Σ w(sᵢ) |
| SoftmaxKernels.TileStep | 8node-nvfp4/kernels/sm12x_sparse_mla_attn.py:505-578 | one pass of the tiled loop, including a padded last tile, an empty tile and an empty prefix, keeps the closed form |
| SoftmaxKernels.FusedAttend | 8node-nvfp4/kernels/sm12x_sparse_mla_attn.py:498-578 | for every tile width and pattern of invalid candidates the tiled loop ends in the closed form over the valid ones |
| SoftmaxKernels.MaterializedAttend | 8node-nvfp4/kernels/sm12x_sparse_mla_attn.py:897-923 | the one-at-a-time loop ends in the same closed form |
| SoftmaxKernels.IndexedAccumulate | 8node-nvfp4/kernels/sparse_mla_kernels.py:988-1042 | resumed from any earlier state, one chunk ends in the closed form of everything seen so far |
| ChunkedAttention.AttentionState.MergeAcc | 8node-nvfp4/kernels/sparse_mla_kernels.py:2074-2118 | the merged accumulator, reading maxima it leaves in place |
| ChunkedAttention.AttentionState.MergeStats | 8node-nvfp4/kernels/sparse_mla_kernels.py:2135-2171 | the merged maximum and denominator, accumulator untouched |
| ChunkedAttention.AttentionState.MergeChunk | 8node-nvfp4/kernels/sparse_mla_kernels.py:2256-2283 | issued in this order the two in-place launches produce the full merge |
| ChunkedAttention.SplitScores | 8node-nvfp4/kernels/sparse_mla_kernels.py:1736-1778 | scores below the length, stale scores elsewhere |
| ChunkedAttention.SplitAccumulate | 8node-nvfp4/kernels/sparse_mla_kernels.py:1917-2047 | three passes over a chunk end in its closed form; stale scores are never read |
| ChunkedAttention.AccumulateChunked | 8node-nvfp4/kernels/sparse_mla_kernels.py:2221-2283 | for every chunk size and previous contents of the tensors the driver ends in the closed form of the whole list |
| ChunkedAttention.SplitSums | 8node-nvfp4/kernels/sparse_mla_kernels.py:1755-1777 | against the scalar kernels the split path adds weight exp(0) per invalid index below the length and no value |
| ChunkedAttention.SplitAgreesIff | 8node-nvfp4/kernels/sparse_mla_kernels.py:1755-1777 | the split state equals the scalar state iff no index below the length is invalid |
| ChunkedAttention.SplitOutput | 8node-nvfp4/kernels/sparse_mla_kernels.py:1755-1777 | its output is the scalar numerator over a denominator raised by the number of invalid indices |
| ChunkedAttention.SentinelCounted | 8node-nvfp4/kernels/sparse_mla_kernels.py:1755-1777 | one sentinel below the length: the scalar state stays empty, the split state counts a candidate |
| FinishAttention.FinishStateExact | 8node-nvfp4/kernels/sparse_mla_kernels.py:3233-3264 | finishing a scan gives the attention output and the exact log-sum-exp, 0 and -inf when empty; the decode wrapper's clamped lse is the same |
| FinishAttention.PartialMeaning | 8node-nvfp4/kernels/sparse_mla_kernels.py:3233-3251 | a partial's output is the attention over its candidates, its lse -inf iff it has none |
| FinishAttention.LargestReference | 8node-nvfp4/kernels/sparse_mla_kernels.py:67-71 | weights are taken relative to the larger lse, so none exceeds 1 |
| FinishAttention.SinkAtShift | 8node-nvfp4/kernels/sparse_mla_kernels.py:3342-3358 | the sink form has the same value at every reference maximum |
| FinishAttention.FinishWithSinkExact | 8node-nvfp4/kernels/sparse_mla_kernels.py:3338-3374 | state plus sink gives Σ w·v / (Σ w + w(sink)), and 0 with neither |
| FinishAttention.FinishTwoWithSinkExact | 8node-nvfp4/kernels/sparse_mla_kernels.py:3411-3463 | two states over a split candidate list plus a sink give the sink form of the whole list |
| FinishAttention.MergeTwoSubsetsExact | 8node-nvfp4/kernels/sparse_mla_kernels.py:64-99 | merging two normalised subsets with a sink gives the sink form of their union; NaN iff both are empty and there is no sink |
| FinishAttention.MergeSubsetExact | 8node-nvfp4/kernels/sparse_mla_kernels.py:173-198 | the same for one subset |
| SinkKernels.FinishScores | 8node-nvfp4/kernels/sparse_mla_kernels.py:420-467 | a recurrence started at (sink, 1, 0) ends in the sink form, also for a sink of -inf |
| SinkKernels.FinishScoresTwoPass | 8node-nvfp4/kernels/sparse_mla_kernels.py:500-556 | the two-pass form over candidate blocks gives the sink form; NaN iff there is neither sink nor candidate |
| Recombine.RecombineTwoExact | 8node-nvfp4/validate_lse_recombine.py:56-66 | merging two shards' outputs and lses gives both for their union; NaN iff both are empty |
| Recombine.MergeTreeExact | 8node-nvfp4/validate_lse_recombine.py:56-66 | every pairwise merge order gives the partial of all candidates iff no merge on the way meets two empty operands, and NaN otherwise |
| Recombine.EmptyPairPoisons | 8node-nvfp4/validate_lse_recombine.py:62-66 | a concrete merge order that yields NaN where another yields the output |
| Recombine.PartialPermutes | 8node-nvfp4/validate_lse_recombine.py:48-54 | a partial does not depend on the order of its candidates |
| Recombine.MergeOrderIrrelevant | 8node-nvfp4/validate_lse_recombine.py:56-66 | two merge orders over any two partitions of the same candidates agree |
| Recombine.RecombineAllExact | 8node-nvfp4/validate_lse_recombine.py:56-59 | recombining any number of shards, empty ones included, gives output and log-sum-exp of all candidates; NaN iff none holds one |
| Recombine.TopIsLargest | 8node-nvfp4/validate_lse_recombine.py:62-64 | no shard's weight relative to the largest lse exceeds 1 |
| StreamingTopK.TopKInto | 8node-nvfp4/kernels/sm12x_deep_gemm_fallbacks.py:270-273 | all that is assumed of torch.topk: distinct indices, values paired with them, nothing larger left out |
| StreamingTopK.LeftOutIsBeaten | 8node-nvfp4/kernels/sm12x_deep_gemm_fallbacks.py:279-292 | a key dropped by the chunk, by an earlier chunk or by the merge does not beat any key kept |
| StreamingTopK.ChunkKeeps | 8node-nvfp4/kernels/sm12x_deep_gemm_fallbacks.py:270-293 | after a chunk slots are -1 iff their value is -inf, pairs belong together, indices are distinct, nothing left out beats anything kept |
| StreamingTopK.ChunkStep | 8node-nvfp4/kernels/sm12x_deep_gemm_fallbacks.py:270-293 | the buffer-level code of one chunk keeps that invariant whatever stale columns the buffers hold |
| StreamingTopK.Buffers.Absorb | 8node-nvfp4/kernels/sm12x_deep_gemm_fallbacks.py:285-293 | swapping the two value buffers preserves it without aliasing |
| TopKScores.StreamCount | 8node-nvfp4/kernels/sm12x_deep_gemm_fallbacks.py:293-295 | exactly min(K, number of finite logits) slots hold an index |
| TopKScores.KeptIsBest | 8node-nvfp4/kernels/sm12x_deep_gemm_fallbacks.py:247-295 | the kept positions are a set of that size which no outsider beats |
| TopKScores.StrictIsBest | 8node-nvfp4/validate_perf2_prefill.py:109-114 | so are the positions of the strict selection |
| TopKScores.SameScores | 8node-nvfp4/validate_perf2_prefill.py:109-128 | any two such sets carry the same multiset of scores, dense ties included |
| TopKScores.StreamScores | 8node-nvfp4/kernels/sm12x_deep_gemm_fallbacks.py:247-295 | streaming under any tie-break returns the scores of the strict selection |
| AnyTies.OneShotScores | 8node-nvfp4/validate_perf2_prefill.py:109-134 | one torch.topk over a row selects a best set, with the scores of the strict selection, however ties fall |
| AnyTies.PickedIsBest | 8node-nvfp4/validate_perf2_prefill.py:110-112 | any top-k over lanes with invalid ones among them holds a best set of the positions they carry |
| AnyTies.UnionOfBest | 8node-nvfp4/validate_perf2_prefill.py:110-114 | a best set of the union of local best sets is a best set of all positions |
| AnyTies.BestIsUniqueIff | 8node-nvfp4/validate_perf2_prefill.py:110-112 | a best set is the only one iff no key left out scores the same as a key selected |
| AnyTies.SelectAnyTies | 8node-nvfp4/validate_perf2_prefill.py:51-70 | the candidate union with plain top-ks in place of the strict sort selects distinct positions forming a best set of all logits |
| DecodeStep.RowSum | 8node-nvfp4/validate_dcp_reassembly.py:27-31 | a sum over the lanes of a selection depends only on the set of positions selected, not on their order |
| DecodeStep.AnyTiesStep | 8node-nvfp4/validate_perf2_prefill.py:109-114 | the sharded step with plain top-ks is the attention over some best set of the keys; NaN iff that set is empty |
| DecodeStep.AnyTiesAgree | 8node-nvfp4/validate_perf2_prefill.py:109-114 | it returns what the strict unsharded step returns whenever the K-th score is not tied |
| IndexerTopK.ChunkLogits | 8node-nvfp4/kernels/sm12x_deep_gemm_fallbacks.py:247-268 | a chunk holds the plain logits of its keys, -inf outside [ks, ke), for every head chunk |
| IndexerTopK.MqaTopK | 8node-nvfp4/kernels/sm12x_deep_gemm_fallbacks.py:206-295 | the dense loop leaves a best set of all logits in [ks, ke) with the right number of slots filled, every score tile within the memory bound |
| IndexerTopK.PagedTopK | 8node-nvfp4/kernels/sm12x_deep_gemm_fallbacks.py:543-637 | the paged loop leaves a best set of the dense row of the keys that the pages hold, for every chunk and tile size, early returns included |
| IndexerLogits.TileWithinBudget | 8node-nvfp4/kernels/sm12x_deep_gemm_fallbacks.py:102-123 | every transient score tile takes at most max(64 MiB, 4·seq_len) bytes, also when the last head chunk is shorter and its key chunk larger |
| IndexerLogits.ChunkSizesAre | 8node-nvfp4/kernels/sm12x_deep_gemm_fallbacks.py:102-123 | between 1 and 8 heads and 1 and all keys per chunk; one more would exceed 64 MiB |
| IndexerLogits.HeadAdds | 8node-nvfp4/kernels/sm12x_deep_gemm_fallbacks.py:160-162 | a head adds 0 when its scaled product is not positive and weight times the product otherwise |
| IndexerLogits.HeadSumIs | 8node-nvfp4/kernels/sm12x_deep_gemm_fallbacks.py:159-165 | the logit is the product of the weights with the scores, negative ones taken as 0 |
| IndexerLogits.NothingPositive | 8node-nvfp4/kernels/sm12x_deep_gemm_fallbacks.py:160-162 | a key that no head scores above 0 has logit 0 |
| IndexerLogits.DequantisedDot | 8node-nvfp4/kernels/sm12x_deep_gemm_fallbacks.py:138-141 | scaling the key before the product equals scaling the score after it |
| IndexerLogits.HeadSumSplits | 8node-nvfp4/kernels/sm12x_deep_gemm_fallbacks.py:150-165 | the sum over heads splits at any head-chunk boundary |
| IndexerLogits.AddHeadChunk | 8node-nvfp4/kernels/sm12x_deep_gemm_fallbacks.py:150-165 | the key chunks of one head chunk add its heads to every key exactly once |
| IndexerLogits.DenseLogits | 8node-nvfp4/kernels/sm12x_deep_gemm_fallbacks.py:126-165 | every (head, key) pair is summed exactly once |
| PagedLogits.LaneLogit | 8node-nvfp4/kernels/sm12x_mqa.py:381-416 | head and dimension tiles of any size, with masked lanes, add up to the plain sum |
| PagedLogits.RowwiseWindow | 8node-nvfp4/kernels/sm12x_mqa.py:343-421 | the plain sum at every position of the window inside the context, -inf past it, early exit included |
| PagedLogits.BlockWindow | 8node-nvfp4/kernels/sm12x_mqa.py:223-293 | the two-dimensional kernel gives every row of a batch the same logits, for every tile shape |
| PagedLogits.TorchRow | 8node-nvfp4/kernels/sm12x_deep_gemm_fallbacks.py:418-446 | and so does the torch loop over the full length |
| PagedLogits.WindowIs | 8node-nvfp4/kernels/sm12x_mqa.py:368-381 | with the b-th block of the table holding keys b·block_size on, window entry i is the plain logit of key start + i, and -inf past the context |
| PagedLogits.PagedIsDense | 8node-nvfp4/kernels/sm12x_deep_gemm_fallbacks.py:433-446 | the full paged row equals the dense row of the keys that the pages hold |
| PagedLogits.RowLogitIs | 8node-nvfp4/kernels/sm12x_mqa.py:228-247 | row b·next_n + j of the two-dimensional kernel is query position j of request b over that request's keys |
| PagedLogits.WindowsJoin | 8node-nvfp4/kernels/sm12x_deep_gemm_fallbacks.py:599-610 | windows side by side are the window over both |
| PackedCache.ViewPacked | 8node-nvfp4/kernels/sm12x_mqa.py:15-39 | a shape is accepted iff it is a byte tensor with one KV head whose rows end in whole float32 scales |
| PackedCache.CellsApart | 8node-nvfp4/kernels/sm12x_mqa.py:40-52 | every value and scale byte of the two views lies in its block, and no two share a byte |
| PackedCache.BytesCovered | 8node-nvfp4/kernels/sm12x_mqa.py:40-52 | every byte of a block is in one of the views |
| PackedCache.CellOrder | 8node-nvfp4/kernels/sm12x_mqa.py:40-52 | bytes of one key are adjacent, keys follow one another, and the scales start right after the last key's values |
| PackedCache.ValuesFirst | 8node-nvfp4/kernels/sm12x_mqa.py:40-52 | every value byte of a block precedes every scale byte |
| SplitGemm.SplitsRecover | 8node-nvfp4/kernels/sm12x_deep_gemm_fallbacks.py:647-652 | any number of splits, also more than K, sums to the whole product |
| SplitGemm.SplitProgram | 8node-nvfp4/kernels/sm12x_mqa.py:636-660 | a program stores exactly its split's part, also for an empty split or a tile wider than it |
| SplitGemm.SplitPrenorm | 8node-nvfp4/kernels/sm12x_mqa.py:632-676 | summing over the split dimension recovers product and square norm |
| SplitGemm.FallbackPrenorm | 8node-nvfp4/kernels/sm12x_deep_gemm_fallbacks.py:640-665 | the portable fallback keeps the same contract: the product in the first split and zeros elsewhere, or the product itself when there is no split dimension |
| Safetensors.LittleEndianRoundTrip | prune/awq_surgery.py:28-29 | a length below 256^bytes survives the fixed-width encoding |
| Safetensors.LittleEndianDigit | prune/awq_surgery.py:53 | byte i of the encoding is digit i in base 256, least significant first |
| Safetensors.Write | prune/awq_surgery.py:45-54 | the file is the length, the header with cumulative offsets, and all bytes in order |
| Safetensors.LengthByte | prune/awq_surgery.py:51-53 | the first eight bytes are the digits of the header's length, the header follows |
| Safetensors.BytesOfTensor | prune/awq_surgery.py:54 | every tensor's bytes lie right behind those of the one before, up to the end of the file |
| Safetensors.RoundTrip | prune/awq_surgery.py:26-32 | reading any tensor that no later one shadows returns its bytes, dtype and shape; with distinct names that is every tensor |
| Safetensors.CheckOffsets | prune/awq_surgery.py:138-141 | the check on sorted offsets passes iff they are contiguous from 0 and end at the file size |
| Safetensors.SortedOffsetsUnique | prune/awq_surgery.py:137 | a header has one sorted arrangement of its offsets, whatever the order of its keys |
| Safetensors.CheckShard | prune/awq_surgery.py:134-141 | parsing a file, sorting its header's offsets and checking them succeeds iff the header is accepted; an exception iff it is unreadable or empty |
| Safetensors.AcceptedSize | prune/awq_surgery.py:140-141 | a header is accepted with one file size only |
| Safetensors.ChainIff | prune/awq_surgery.py:49-50 | the offsets left in the header chain up to any point iff every tensor shadowed before it is empty |
| Safetensors.WrittenAcceptedIff | prune/awq_surgery.py:45-54 | reading back a written shard, the check accepts its header iff every tensor whose name a later one takes is empty |
| Safetensors.DuplicateRejected | prune/awq_surgery.py:49-50 | two non-empty tensors of one name: rejected |
| Safetensors.WriteThenCheck | prune/awq_surgery.py:132-141 | writing a shard and checking its file returns true iff nothing non-empty is shadowed, so for distinct names always |
| Safetensors.WrittenPassesCheck | prune/awq_surgery.py:132-141 | with distinct names the header read back from a written shard is accepted |
| PruneCheckpoint.BiasKeepList | prune/awq_surgery.py:57-66 | the kept experts are those of smallest bias, ties by index, ascending; n_keep of them for 0 <= n_keep <= E, all above that, E + n_keep for a negative one |
| PruneCheckpoint.FixedDropKeepList | prune/awq_surgery.py:68-69 | all experts not listed, ascending |
| PruneCheckpoint.PlanRatio | prune/awq_surgery.py:57-82 | fails iff a layer's bias is missing or is not E float32 values; otherwise every layer keeps the stated number of experts, those of lowest bias |
| PruneCheckpoint.PlanDrop | prune/awq_surgery.py:77-78 | every layer keeps exactly the experts not listed |
| PruneCheckpoint.LabelsBijective | prune/awq_surgery.py:83 | labels are an order-preserving bijection from the kept experts onto 0..N-1 |
| PruneCheckpoint.NamesDoNotCollide | prune/awq_surgery.py:86-94 | no two surviving tensors are written under one name |
| PruneCheckpoint.RowsComeFromKept | prune/awq_surgery.py:33-35 | row j of a slice is row keep[j] of the source where the source has it, and otherwise the slice ends before row j |
| PruneCheckpoint.SliceFillsShape | prune/awq_surgery.py:33-35 | a slice has the bytes its shape announces iff every kept index is a row of the source (or rows are empty) |
| PruneCheckpoint.SliceCutShort | prune/awq_surgery.py:33-35 | a one-row gate sliced for two experts is written with one row |
| PruneCheckpoint.ConvertShard | prune/awq_surgery.py:101-110 | every surviving name of a shard is written in order, renamed and converted; fails iff one cannot be sliced |
| PruneCheckpoint.Build | prune/awq_surgery.py:96-116 | every shard holds exactly what has to stay under its new name, no name twice; the weight map lists it, total_size is the sum; fails iff some gate or bias of a pruned layer is not made of whole rows |
| PruneCheckpoint.ExpertIsKept | prune/awq_surgery.py:86-92 | new expert j is byte for byte the j-th kept expert of the source |
| PruneCheckpoint.RouterRowsFollow | prune/awq_surgery.py:107-109 | row j of gate and bias comes from the very source expert that is now expert j; where the source has no such row the tensor ends before row j |
| PruneCheckpoint.OthersIdentical | prune/awq_surgery.py:94-110 | every tensor that is neither an expert nor a router of a pruned layer is written in its shard with its dtype, shape and bytes |
| PruneCheckpoint.NameStays | prune/awq_surgery.py:92-110 | a tensor that is not an expert is written under its own name in its own shard |
| PruneCheckpoint.KeptExpertWritten | prune/awq_surgery.py:88-90 | kept expert number j of a layer is written as expert j |
| PruneCheckpoint.NothingElse | prune/awq_surgery.py:86-110 | every written tensor comes from such an entry of its shard: an expert byte for byte from the kept expert, any unsliced tensor from its namesake |
| PruneCheckpoint.SliceFails | prune/awq_surgery.py:33-34 | slicing fails iff a tensor has no rows or bytes that are not a multiple of them |
| PruneCheckpoint.RowBytes | prune/awq_surgery.py:35 | byte x of row i is byte i·row_bytes + x |
| PruneCheckpoint.IndexedEntries | prune/awq_surgery.py:113 | the weight map maps every written name to its shard and holds no other name |
| PruneCheckpoint.SizeAdds | prune/awq_surgery.py:113 | total_size grows by the length of each tensor written |
| PruneCheckpoint.WrittenShardReadsBack | prune/awq_surgery.py:111-113 | every tensor of a pruned shard can be read back from its file |
| PruneCheckpoint.WrittenShardPasses | prune/awq_surgery.py:132-141 | the names of a pruned shard are distinct and its header, as read back, passes the structural check |
| PruneCheckpoint.BuildThenCheck | prune/awq_surgery.py:132-141 | the structural check accepts every shard that build wrote |
| PrefillChunks.OnlyOwner | 8node-nvfp4/kernels/flashmla_sparse.py:502-506 | the request a token is assigned to is the only one whose range holds it |
| PrefillChunks.FillReqIds | 8node-nvfp4/kernels/flashmla_sparse.py:502-512 | every token gets its request, the padding 0 |
| PrefillChunks.FillPrefillIds | 8node-nvfp4/kernels/flashmla_sparse.py:396-405 | every prefill token gets its request counted from the first prefill, every other token -1 |
| PrefillChunks.BuildTokenTables | 8node-nvfp4/kernels/flashmla_sparse.py:396-405 | every token gets the request that holds it, and the two tables agree: -1 exactly on decode tokens, else request minus num_decodes |
| PrefillChunks.BuildChunks | 8node-nvfp4/kernels/flashmla_sparse.py:407-460 | after the in-place adjustments a chunk's request ranges follow one another from 0 and end at its stored total, and its token slice is that of its requests |
| PrefillChunks.ChunkInPlainTerms | 8node-nvfp4/kernels/flashmla_sparse.py:430-441 | the request ranges of a chunk tile [0, chunk_tot_seqlen) without gap |
| PrefillChunks.WorkspaceRowOwner | 8node-nvfp4/kernels/flashmla_sparse.py:430-441 | every workspace row below the chunk's stored total belongs to exactly one request of the chunk |
| PrefillChunks.TokenSlicesTile | 8node-nvfp4/kernels/flashmla_sparse.py:441-444 | the chunks' token slices tile exactly the prefill tokens |
| PrefillChunks.TokenChunk | 8node-nvfp4/kernels/flashmla_sparse.py:439-444 | every prefill token lies in the slice of exactly one chunk, the one whose requests include the token's prefill id |

## Left out

- DecodeStep.StepsAgree: without a sink, since the sharded path has none; sinks are treated in `FinishAttention` and `SinkKernels`.
- DecodeStep.DistributedStep: the cross-rank output reduction `cp_lse_ag_out_rs` is not part of this model; the formula given for it in validate_lse_recombine.py is.
- AnyTies.SelectAnyTies: the top-k kernel used on each rank is not part of this model; it is taken to meet the contract of `torch.topk`.
- StreamingTopK.TopKInto: the body is one way to meet the contract; only the contract is used, so every tie-break and output order of `torch.topk` is covered. Why equal inputs give equal choices is not modelled.
- PrefillChunks.BuildChunks: `split_prefill_chunks` is not part of this model; its bounds are assumed contiguous, non-empty and covering. The device copy of the starts, of which the chunks hold views, is not modelled.
- PruneCheckpoint.Build: shards are numbered in the order in which they are visited; shards left empty are kept as empty lists rather than skipped. Layer counts are taken as given, so an expert of a layer without a kept list, which cannot arise there, counts as dropped.
- PruneCheckpoint.PlanRatio: decoding four bytes to a float is a parameter, and NaN biases are left out.
- PruneCheckpoint.BuildThenCheck: the other checks of `validate` (existing shards, expert and gate counts, hashes) are not modelled.
- Safetensors.RoundTrip: the JSON text of a header is a pair of functions required only to agree on that header; `__metadata__` is left out.
- Rounding, and the fp8, bf16 and tf32 conversions: arithmetic is exact.
- NaN and +inf logits and scores.
- One token, head and value dimension at a time for attention, one query row for the indexer (except the two-dimensional kernel), since the others are independent.
- Query and key vectors behind attention scores, dequantisation of the attention cache, and its byte layout: a key is its score and its value.
- Triton grids, strides, autotuning, padded lanes of heads and dimensions, 32-bit index overflow, profiling and environment switches.
- The multihead, gathered, fp8ds and paged variants of the accumulate kernels, the value-block variant of the sink kernel, and the matmul form: the same recurrences with other loads.
- Interleave sizes above 1 in the localisation formula.
- Parsing names by regular expressions, config.json, copying of other files, spot checks by hashes in `validate`.
- `split_prefill_chunks`, index conversion to global slots and `cp_gather` kernels, which belong to another code base.
- HTTP validators, benchmarks, launch scripts and monkeypatching.
