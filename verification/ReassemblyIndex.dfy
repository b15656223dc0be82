/** The ragged prefill permutation: where, in the rank-major concatenation of the ranks' shards,
    each key of the per-request global order lies. */
module ReassemblyIndex {
  import opened Wrappers
  import opened Ownership
  import opened StrictTopK

  /** Owned key counts, one row per rank, one column per request. */
  ghost predicate Counts(L: seq<seq<nat>>, N: nat, R: nat) {
    |L| == N && forall r :: 0 <= r < N ==> |L[r]| == R
  }

  function SumTo(row: seq<nat>, n: nat): nat
    requires n <= |row|
  {
    if n == 0 then 0 else SumTo(row, n - 1) + row[n - 1]
  }

  /** Start of rank r's block: the totals of the ranks before it. */
  function RankBase(L: seq<seq<nat>>, r: nat): nat
    requires r <= |L|
  {
    if r == 0 then 0 else RankBase(L, r - 1) + SumTo(L[r - 1], |L[r - 1]|)
  }

  /** Global length of request q: the column sum. */
  function GlobalLen(L: seq<seq<nat>>, q: nat, n: nat): nat
    requires n <= |L| && forall r :: 0 <= r < |L| ==> q < |L[r]|
  {
    if n == 0 then 0 else GlobalLen(L, q, n - 1) + L[n - 1][q]
  }

  /** Entry p of request q: base of the owner's block, offset of the request in it, local row. */
  function Entry(L: seq<seq<nat>>, N: nat, q: nat, p: nat): nat
    requires N > 0 && |L| == N && forall r :: 0 <= r < N ==> q < |L[r]|
  {
    RankBase(L, p % N) + SumTo(L[p % N], q) + p / N
  }

  /** The index entries of request q. */
  function RequestIndex(L: seq<seq<nat>>, N: nat, R: nat, q: nat): (part: seq<nat>)
    requires N > 0 && |L| == N && (forall r :: 0 <= r < N ==> |L[r]| == R) && q < R
    ensures |part| == GlobalLen(L, q, N)
    ensures forall p :: 0 <= p < |part| ==> part[p] == Entry(L, N, q, p)
  {
    seq(GlobalLen(L, q, N), p requires 0 <= p => Entry(L, N, q, p))
  }

  function IndexTo(L: seq<seq<nat>>, N: nat, R: nat, q: nat): seq<nat>
    requires N > 0 && |L| == N && (forall r :: 0 <= r < N ==> |L[r]| == R) && q <= R
  {
    if q == 0 then [] else IndexTo(L, N, R, q - 1) + RequestIndex(L, N, R, q - 1)
  }

  /** One rank's row of the offset table: exclusive cumulative sums; returns the rank's total. */
  method CumulateRow(row: seq<nat>, reqOff: array2<nat>, r: nat) returns (sum: nat)
    requires r < reqOff.Length0 && |row| == reqOff.Length1
    modifies reqOff
    ensures sum == SumTo(row, |row|)
    ensures forall q :: 0 <= q < |row| ==> reqOff[r, q] == SumTo(row, q)
    ensures forall k, q :: 0 <= k < reqOff.Length0 && k != r && 0 <= q < |row| ==> reqOff[k, q] == old(reqOff[k, q])
  {
    sum := 0;
    for q := 0 to |row|
      invariant sum == SumTo(row, q)
      invariant forall q' :: 0 <= q' < q ==> reqOff[r, q'] == SumTo(row, q')
      invariant forall k, q' :: 0 <= k < reqOff.Length0 && k != r && 0 <= q' < |row| ==> reqOff[k, q'] == old(reqOff[k, q'])
    {
      reqOff[r, q] := sum;
      sum := sum + row[q];
    }
  }

  lemma {:induction false} RankBaseZero(L: seq<seq<nat>>)
    ensures RankBase(L, 0) == 0
  {}

  lemma RankBaseNext(L: seq<seq<nat>>, r: nat)
    requires r < |L|
    ensures RankBase(L, r + 1) == RankBase(L, r) + SumTo(L[r], |L[r]|)
  {}

  /** Where each rank's block starts, and where each request starts in it: exclusive cumulative sums. */
  method OffsetTables(L: seq<seq<nat>>, N: nat, R: nat) returns (rankBase: array<nat>, reqOff: array2<nat>)
    requires N > 0 && Counts(L, N, R)
    ensures rankBase.Length == N && reqOff.Length0 == N && reqOff.Length1 == R
    ensures forall r :: 0 <= r < N ==> rankBase[r] == RankBase(L, r)
    ensures forall r, q :: 0 <= r < N && 0 <= q < R ==> reqOff[r, q] == SumTo(L[r], q)
  {
    RankBaseZero(L);
    hide SumTo, RankBase;
    rankBase := new nat[N];
    reqOff := new nat[N, R];
    var total: nat := 0;
    for r := 0 to N
      invariant fresh(rankBase) && fresh(reqOff)
      invariant rankBase.Length == N && reqOff.Length0 == N && reqOff.Length1 == R
      invariant total == RankBase(L, r)
      invariant forall k :: 0 <= k < r ==> rankBase[k] == RankBase(L, k)
      invariant forall k, q :: 0 <= k < r && 0 <= q < R ==> reqOff[k, q] == SumTo(L[k], q)
    {
      RankBaseNext(L, r);
      rankBase[r] := total;
      var sum := CumulateRow(L[r], reqOff, r);
      total := total + sum;
    }
  }

  /** Offset tables first, then one part per non-empty request. */
  method BuildReassemblyIndex(L: seq<seq<nat>>, N: nat, R: nat) returns (index: seq<nat>)
    requires N > 0 && Counts(L, N, R)
    ensures index == IndexTo(L, N, R, R)
  {
    hide RankBase, SumTo, IndexTo;
    var rankBase, reqOff := OffsetTables(L, N, R);
    index := BuildParts(L, rankBase, reqOff, N, R);
  }

  method BuildParts(L: seq<seq<nat>>, rankBase: array<nat>, reqOff: array2<nat>, N: nat, R: nat) returns (index: seq<nat>)
    requires N > 0 && Counts(L, N, R)
    requires rankBase.Length == N && reqOff.Length0 == N && reqOff.Length1 == R
    requires forall r :: 0 <= r < N ==> rankBase[r] == RankBase(L, r)
    requires forall r, q :: 0 <= r < N && 0 <= q < R ==> reqOff[r, q] == SumTo(L[r], q)
    ensures index == IndexTo(L, N, R, R)
  {
    hide RankBase, SumTo;
    index := [];
    for q := 0 to R
      invariant index == IndexTo(L, N, R, q)
    {
      var glen: nat := 0;
      for r := 0 to N
        invariant glen == GlobalLen(L, q, r)
      {
        glen := glen + L[r][q];
      }
      if glen == 0 {
        assert RequestIndex(L, N, R, q) == [];
        continue;
      }
      var part := BuildPart(L, rankBase, reqOff, N, R, q, glen);
      index := index + part;
    }
  }

  method BuildPart(L: seq<seq<nat>>, rankBase: array<nat>, reqOff: array2<nat>, N: nat, R: nat, q: nat, glen: nat)
    returns (part: seq<nat>)
    requires N > 0 && Counts(L, N, R) && q < R && glen == GlobalLen(L, q, N)
    requires rankBase.Length == N && reqOff.Length0 == N && reqOff.Length1 == R
    requires forall r :: 0 <= r < N ==> rankBase[r] == RankBase(L, r) && reqOff[r, q] == SumTo(L[r], q)
    ensures part == RequestIndex(L, N, R, q)
  {
    hide RankBase, SumTo, GlobalLen;
    part := [];
    for p := 0 to glen
      invariant |part| == p && forall i :: 0 <= i < p ==> part[i] == Entry(L, N, q, i)
    {
      var owner, local := p % N, p / N;
      part := part + [rankBase[owner] + reqOff[owner, q] + local];
    }
  }

  // ---- what the index means ----

  /** A key, identified by its request and its position in the request. */
  datatype Tag = Tag(req: nat, pos: nat)

  /** The counts that interleave-1 sharding of the given request lengths produces. */
  ghost predicate Sharded(L: seq<seq<nat>>, N: nat, glens: seq<nat>) {
    && N > 0
    && Counts(L, N, |glens|)
    && forall r, q :: 0 <= r < N && 0 <= q < |glens| ==> L[r][q] == Own(glens[q], r, N)
  }

  /** Rank r's keys of request q, ascending: local row i is key i·N + r. */
  ghost function Block(glens: seq<nat>, N: nat, r: nat, q: nat): (b: seq<Tag>)
    requires r < N && q < |glens|
    ensures |b| == Own(glens[q], r, N)
    ensures forall i :: 0 <= i < |b| ==> b[i] == Tag(q, GlobalOf(i, r, N))
  {
    seq(Own(glens[q], r, N), i requires 0 <= i => Tag(q, GlobalOf(i, r, N)))
  }

  /** Rank r's shard: its blocks of the first n requests. */
  ghost function RankKeys(glens: seq<nat>, N: nat, r: nat, n: nat): seq<Tag>
    requires r < N && n <= |glens|
  {
    if n == 0 then [] else RankKeys(glens, N, r, n - 1) + Block(glens, N, r, n - 1)
  }

  /** The ragged gather: the shards of the first `ranks` ranks, rank-major. */
  ghost function GatheredKeys(glens: seq<nat>, N: nat, ranks: nat): seq<Tag>
    requires ranks <= N
  {
    if ranks == 0 then [] else GatheredKeys(glens, N, ranks - 1) + RankKeys(glens, N, ranks - 1, |glens|)
  }

  /** The order wanted: request by request, keys ascending. */
  ghost function GlobalKeys(glens: seq<nat>, n: nat): seq<Tag>
    requires n <= |glens|
  {
    if n == 0 then [] else GlobalKeys(glens, n - 1) + seq(glens[n - 1], p requires 0 <= p => Tag(n - 1, p))
  }

  lemma {:induction false} RankKeysAt(L: seq<seq<nat>>, glens: seq<nat>, N: nat, r: nat, n: nat, q: nat, i: nat)
    requires Sharded(L, N, glens) && r < N && q < n <= |glens| && i < Own(glens[q], r, N)
    ensures |RankKeys(glens, N, r, n)| == SumTo(L[r], n)
    ensures SumTo(L[r], q) + i < SumTo(L[r], n)
    ensures RankKeys(glens, N, r, n)[SumTo(L[r], q) + i] == Tag(q, GlobalOf(i, r, N))
  {
    RankKeysLen(L, glens, N, r, n);
    RankKeysLen(L, glens, N, r, n - 1);
    if q < n - 1 {
      RankKeysAt(L, glens, N, r, n - 1, q, i);
    }
  }

  lemma {:induction false} RankKeysLen(L: seq<seq<nat>>, glens: seq<nat>, N: nat, r: nat, n: nat)
    requires Sharded(L, N, glens) && r < N && n <= |glens|
    ensures |RankKeys(glens, N, r, n)| == SumTo(L[r], n)
  {
    if n > 0 { RankKeysLen(L, glens, N, r, n - 1); }
  }

  lemma {:induction false} GatheredLen(L: seq<seq<nat>>, glens: seq<nat>, N: nat, ranks: nat)
    requires Sharded(L, N, glens) && ranks <= N
    ensures |GatheredKeys(glens, N, ranks)| == RankBase(L, ranks)
  {
    hide Own, SumTo, RankKeys;
    if ranks > 0 {
      GatheredLen(L, glens, N, ranks - 1);
      RankKeysLen(L, glens, N, ranks - 1, |glens|);
    }
  }

  /** Key i·N + r of request q lies at rank base + request offset + i. */
  lemma {:induction false} GatheredHolds(L: seq<seq<nat>>, glens: seq<nat>, N: nat, ranks: nat, r: nat, q: nat, i: nat)
    requires Sharded(L, N, glens) && r < ranks <= N && q < |glens| && i < Own(glens[q], r, N)
    ensures var at := RankBase(L, r) + SumTo(L[r], q) + i;
            && at < |GatheredKeys(glens, N, ranks)|
            && GatheredKeys(glens, N, ranks)[at] == Tag(q, GlobalOf(i, r, N))
  {
    hide Own, GlobalOf, RankBase, SumTo, RankKeys;
    GatheredLen(L, glens, N, ranks - 1);
    if r < ranks - 1 {
      GatheredHolds(L, glens, N, ranks - 1, r, q, i);
    } else {
      RankKeysAt(L, glens, N, r, |glens|, q, i);
    }
  }

  lemma {:induction false} LengthIsOwnSum(L: seq<seq<nat>>, glens: seq<nat>, N: nat, q: nat, n: nat)
    requires Sharded(L, N, glens) && q < |glens| && n <= N
    ensures GlobalLen(L, q, n) == OwnSum(glens[q], N, n)
  {
    if n > 0 { LengthIsOwnSum(L, glens, N, q, n - 1); }
  }

  lemma {:induction false} GlobalLenIs(L: seq<seq<nat>>, glens: seq<nat>, N: nat, q: nat)
    requires Sharded(L, N, glens) && q < |glens|
    ensures GlobalLen(L, q, N) == glens[q]
  {
    LengthIsOwnSum(L, glens, N, q, N);
    OwnSumsToAll(glens[q], N);
  }

  /** Entry p of request q points at key p of request q. */
  lemma {:induction false} EntryPoints(L: seq<seq<nat>>, glens: seq<nat>, N: nat, q: nat, p: nat)
    requires Sharded(L, N, glens) && q < |glens| && p < glens[q]
    ensures GlobalLen(L, q, N) == glens[q]
    ensures var at := RequestIndex(L, N, |glens|, q)[p];
            at < |GatheredKeys(glens, N, N)| && GatheredKeys(glens, N, N)[at] == Tag(q, p)
  {
    hide RankBase, SumTo, GlobalLen, Own;
    GlobalLenIs(L, glens, N, q);
    Globalised(p, N);
    OwnIff(glens[q], p % N, N, p / N);
    GatheredHolds(L, glens, N, N, p % N, q, p / N);
  }

  lemma {:induction false} PrefixPoints(L: seq<seq<nat>>, glens: seq<nat>, N: nat, n: nat)
    requires Sharded(L, N, glens) && n <= |glens|
    ensures var index, keys, gathered := IndexTo(L, N, |glens|, n), GlobalKeys(glens, n), GatheredKeys(glens, N, N);
            && |index| == |keys|
            && (forall g :: 0 <= g < |index| ==> index[g] < |gathered| && gathered[index[g]] == keys[g])
  {
    if n > 0 {
      var q := n - 1;
      PrefixPoints(L, glens, N, q);
      GlobalLenIs(L, glens, N, q);
      forall p | 0 <= p < glens[q]
        ensures var at := RequestIndex(L, N, |glens|, q)[p];
                at < |GatheredKeys(glens, N, N)| && GatheredKeys(glens, N, N)[at] == Tag(q, p)
      {
        EntryPoints(L, glens, N, q, p);
      }
    }
  }

  lemma {:induction false} KeysDistinct(glens: seq<nat>, n: nat)
    requires n <= |glens|
    ensures forall g :: 0 <= g < |GlobalKeys(glens, n)| ==> GlobalKeys(glens, n)[g].req < n
    ensures forall g, h :: 0 <= g < h < |GlobalKeys(glens, n)| ==> GlobalKeys(glens, n)[g] != GlobalKeys(glens, n)[h]
  {
    if n > 0 { KeysDistinct(glens, n - 1); }
  }

  function BaseTo(L: seq<seq<nat>>, r: nat, n: nat): nat
    requires r <= |L| && forall k :: 0 <= k < |L| ==> n <= |L[k]|
  {
    if r == 0 then 0 else BaseTo(L, r - 1, n) + SumTo(L[r - 1], n)
  }

  lemma {:induction false} BaseToNext(L: seq<seq<nat>>, r: nat, n: nat)
    requires r <= |L| && forall k :: 0 <= k < |L| ==> n < |L[k]|
    ensures BaseTo(L, r, n + 1) == BaseTo(L, r, n) + GlobalLen(L, n, r)
  {
    if r > 0 { BaseToNext(L, r - 1, n); }
  }

  lemma {:induction false} BaseToIsRankBase(L: seq<seq<nat>>, r: nat, R: nat)
    requires r <= |L| && forall k :: 0 <= k < |L| ==> |L[k]| == R
    ensures BaseTo(L, r, R) == RankBase(L, r)
  {
    if r > 0 { BaseToIsRankBase(L, r - 1, R); }
  }

  /** Summing by request or by rank counts the same keys. */
  lemma {:induction false} TotalsAgree(L: seq<seq<nat>>, glens: seq<nat>, N: nat, n: nat)
    requires Sharded(L, N, glens) && n <= |glens|
    ensures |GlobalKeys(glens, n)| == BaseTo(L, N, n)
  {
    if n > 0 {
      TotalsAgree(L, glens, N, n - 1);
      BaseToNext(L, N, n - 1);
      GlobalLenIs(L, glens, N, n - 1);
    } else {
      BaseToZero(L, N);
    }
  }

  lemma {:induction false} BaseToZero(L: seq<seq<nat>>, r: nat)
    requires r <= |L|
    ensures BaseTo(L, r, 0) == 0
  {
    if r > 0 { BaseToZero(L, r - 1); }
  }

  /** For every number of ranks and every list of request lengths, empty ones included, the index
      is a permutation that takes the gathered keys to the global order. */
  lemma {:induction false} IndexIsPermutation(L: seq<seq<nat>>, glens: seq<nat>, N: nat)
    requires Sharded(L, N, glens)
    ensures var index, gathered := IndexTo(L, N, |glens|, |glens|), GatheredKeys(glens, N, N);
            && IsPermutation(index, |gathered|)
            && Gather(gathered, index) == GlobalKeys(glens, |glens|)
  {
    var index, gathered, keys := IndexTo(L, N, |glens|, |glens|), GatheredKeys(glens, N, N), GlobalKeys(glens, |glens|);
    PrefixPoints(L, glens, N, |glens|);
    KeysDistinct(glens, |glens|);
    TotalsAgree(L, glens, N, |glens|);
    BaseToIsRankBase(L, N, |glens|);
    GatheredLen(L, glens, N, N);
    forall g, h | 0 <= g < h < |index|
      ensures index[g] != index[h]
    {
      assert keys[g] != keys[h];
    }
  }
}
