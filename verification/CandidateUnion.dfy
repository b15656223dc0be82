/** Distributed selection: every rank's local top-K in fixed-size rows, gathered in any rank
    order, re-selected by the strict order, and written back as owned local rows. */
module CandidateUnion {
  import opened Wrappers
  import opened Ownership
  import opened StrictTopK

  // ---- the selection lemma ----

  /** A selection of fewer than k is everything; otherwise it has k members. */
  lemma {:induction false} FullOrAll(s: set<Cand>, k: nat, x: Cand)
    requires x in s && x !in TopK(s, k)
    ensures |TopK(s, k)| == k
  {}

  /** A full local selection contained in the union's selection is all of it. */
  lemma LocalFillsUnion(local: seq<Cand>, top: seq<Cand>, k: nat)
    requires Ranked(local) && Ranked(top) && |local| == k && |top| <= k
    requires forall x :: x in local ==> x in top
    ensures |top| == k && forall t :: t in top ==> t in local
  {
    RankedDistinct(local);
    RankedDistinct(top);
    assert Image(local) <= Image(top);
    SubsetSize(Image(local), Image(top));
    forall t | t in top
      ensures t in local
    {
      if t !in local {
        SubsetSize(Image(local), Image(top) - {t});
      }
    }
  }

  /** c holds exactly the members of the shards' local selections. */
  ghost predicate HoldsLocals(c: set<Cand>, shards: seq<set<Cand>>, k: nat) {
    && (forall x, r :: 0 <= r < |shards| && x in TopK(shards[r], k) ==> x in c)
    && (forall x :: x in c ==> exists r :: 0 <= r < |shards| && x in TopK(shards[r], k))
  }

  ghost predicate Covers(s: set<Cand>, shards: seq<set<Cand>>) {
    && (forall x, r :: 0 <= r < |shards| && x in shards[r] ==> x in s)
    && (forall x :: x in s ==> exists r :: 0 <= r < |shards| && x in shards[r])
  }

  lemma {:induction false} NotLocalIsBeaten(s: set<Cand>, shards: seq<set<Cand>>, k: nat, c: set<Cand>, r: nat, x: Cand)
    requires HoldsLocals(c, shards, k)
    requires r < |shards| && x in shards[r] && x !in TopK(c, k)
    ensures |TopK(c, k)| == k && forall t :: t in TopK(c, k) ==> Before(t, x)
  {
    var top, local := TopK(c, k), TopK(shards[r], k);
    if x !in local {
      FullOrAll(shards[r], k, x);
      if l :| l in local && l !in top {
        FullOrAll(c, k, l);
        forall t | t in top
          ensures Before(t, x)
        {
          assert Before(t, l) && Before(l, x);
        }
      } else {
        LocalFillsUnion(local, top, k);
      }
    }
  }

  /** Selecting among the local selections is selecting among all candidates. */
  lemma {:induction false} UnionSelects(s: set<Cand>, shards: seq<set<Cand>>, k: nat, c: set<Cand>)
    requires Covers(s, shards) && HoldsLocals(c, shards, k)
    ensures TopK(c, k) == TopK(s, k)
  {
    var top := TopK(c, k);
    forall x | x in top
      ensures x in s
    {
      var r :| 0 <= r < |shards| && x in TopK(shards[r], k);
    }
    forall x | x in s && x !in top
      ensures |top| == k && forall t :: t in top ==> Before(t, x)
    {
      var r :| 0 <= r < |shards| && x in shards[r];
      NotLocalIsBeaten(s, shards, k, c, r, x);
    }
    TopKUnique(top, TopK(s, k), s, k);
  }

  // ---- rows of logits ----

  /** The valid columns of a full row of logits, as candidates at their own positions. */
  ghost function Global(logits: seq<Logit>): (s: set<Cand>)
    ensures forall x :: x in s <==> 0 <= x.pos < |logits| && logits[x.pos] == Fin(x.score)
  {
    set p | 0 <= p < |logits| && logits[p].Fin? :: Cand(logits[p].x, p)
  }

  /** The candidates rank r owns. */
  ghost function Shard(logits: seq<Logit>, N: nat, r: nat): (s: set<Cand>)
    requires N > 0
    ensures forall x :: x in s <==> x in Global(logits) && x.pos % N == r
  {
    set x | x in Global(logits) && x.pos % N == r
  }

  ghost function Shards(logits: seq<Logit>, N: nat, ranks: seq<nat>): (s: seq<set<Cand>>)
    requires N > 0
    ensures |s| == |ranks| && forall t :: 0 <= t < |ranks| ==> s[t] == Shard(logits, N, ranks[t])
  {
    seq(|ranks|, t requires 0 <= t < |ranks| => Shard(logits, N, ranks[t]))
  }

  /** An order in which the ranks' rows are concatenated. */
  ghost predicate RankOrder(ranks: seq<nat>, N: nat) {
    N > 0 && IsPermutation(ranks, N)
  }

  lemma ShardsCover(logits: seq<Logit>, N: nat, ranks: seq<nat>)
    requires RankOrder(ranks, N)
    ensures Covers(Global(logits), Shards(logits, N, ranks))
  {
    var shards := Shards(logits, N, ranks);
    forall x | x in Global(logits)
      ensures exists t :: 0 <= t < |shards| && x in shards[t]
    {
      Globalised(x.pos, N);
      PermutationCovers(ranks, N, x.pos % N);
      var t :| 0 <= t < |ranks| && ranks[t] == x.pos % N;
      assert x in shards[t];
    }
  }

  /** Selected rows gathered so far: one padded row of K lanes per rank. */
  ghost predicate Gathered(sc: seq<Logit>, pos: seq<int>, shards: seq<set<Cand>>, K: nat) {
    LanePairs(sc, pos) && HoldsLocals(Valid(sc, pos), shards, K)
  }

  lemma RowLanes(c: seq<Cand>, K: nat)
    requires Ranked(c) && |c| <= K
    requires forall x :: x in c ==> x.pos >= 0
    requires forall i, j :: 0 <= i < j < |c| ==> c[i].pos != c[j].pos
    ensures LanePairs(ScoreRow(c, K), PosRow(c, K))
    ensures forall x :: x in Valid(ScoreRow(c, K), PosRow(c, K)) <==> x in c
  {}

  lemma ValidConcat(s1: seq<Logit>, p1: seq<int>, s2: seq<Logit>, p2: seq<int>)
    requires |s1| == |p1| && |s2| == |p2|
    ensures Valid(s1 + s2, p1 + p2) == Valid(s1, p1) + Valid(s2, p2)
  {
    var s, p := s1 + s2, p1 + p2;
    forall x | x in Valid(s1, p1) ensures x in Valid(s, p) {
      var i :| 0 <= i < |s1| && s1[i].Fin? && x == Cand(s1[i].x, p1[i]);
      assert s[i] == s1[i] && p[i] == p1[i];
    }
    forall x | x in Valid(s2, p2) ensures x in Valid(s, p) {
      var i :| 0 <= i < |s2| && s2[i].Fin? && x == Cand(s2[i].x, p2[i]);
      assert s[|s1| + i] == s2[i] && p[|s1| + i] == p2[i];
    }
    forall x | x in Valid(s, p) ensures x in Valid(s1, p1) + Valid(s2, p2) {
      var i :| 0 <= i < |s| && s[i].Fin? && x == Cand(s[i].x, p[i]);
      if i < |s1| {
        assert s1[i].Fin?;
      } else {
        assert s2[i - |s1|].Fin?;
      }
    }
  }

  /** Rows whose valid positions do not meet may be concatenated. */
  lemma LanesConcat(s1: seq<Logit>, p1: seq<int>, s2: seq<Logit>, p2: seq<int>)
    requires LanePairs(s1, p1) && LanePairs(s2, p2)
    requires forall x, y :: x in Valid(s1, p1) && y in Valid(s2, p2) ==> x.pos != y.pos
    ensures LanePairs(s1 + s2, p1 + p2)
  {
    var s, p := s1 + s2, p1 + p2;
    forall i, j | 0 <= i < j < |s| && s[i].Fin? && s[j].Fin?
      ensures p[i] != p[j]
    {
      if i < |s1| <= j {
        assert Cand(s1[i].x, p1[i]) in Valid(s1, p1);
        assert Cand(s2[j - |s1|].x, p2[j - |s1|]) in Valid(s2, p2);
      }
    }
  }

  /** A rank's selection, padded, is a well-formed row. */
  lemma {:induction false} SelectionRow(logits: seq<Logit>, N: nat, r: nat, K: nat)
    requires N > 0
    ensures var top := TopK(Shard(logits, N, r), K);
            && LanePairs(ScoreRow(top, K), PosRow(top, K))
            && (forall x :: x in Valid(ScoreRow(top, K), PosRow(top, K)) <==> x in top)
  {
    var top := TopK(Shard(logits, N, r), K);
    forall i, j | 0 <= i < j < |top|
      ensures top[i].pos != top[j].pos
    {
      assert Before(top[i], top[j]) && top[i] in Shard(logits, N, r) && top[j] in Shard(logits, N, r);
    }
    RowLanes(top, K);
  }

  lemma {:induction false} HoldsOneMore(c: set<Cand>, shards: seq<set<Cand>>, shard: set<Cand>, k: nat, row: set<Cand>)
    requires HoldsLocals(c, shards, k)
    requires forall x :: x in row <==> x in TopK(shard, k)
    ensures HoldsLocals(c + row, shards + [shard], k)
  {
    hide TopK, IsTopK;
    var more := shards + [shard];
    assert more[|shards|] == shard;
    forall x, r | 0 <= r < |more| && x in TopK(more[r], k)
      ensures x in c + row
    {
      if r < |shards| { assert more[r] == shards[r]; }
    }
    forall x | x in c + row
      ensures exists r :: 0 <= r < |more| && x in TopK(more[r], k)
    {
      if x in c {
        var r :| 0 <= r < |shards| && x in TopK(shards[r], k);
        assert more[r] == shards[r];
      }
    }
  }

  /** Appending one rank's local selection. */
  lemma {:induction false} GatherRow(logits: seq<Logit>, N: nat, ranks: seq<nat>, t: nat, sc: seq<Logit>,
                                     pos: seq<int>, K: nat)
    requires RankOrder(ranks, N) && t < |ranks|
    requires Gathered(sc, pos, Shards(logits, N, ranks)[..t], K)
    ensures var top := TopK(Shard(logits, N, ranks[t]), K);
            Gathered(sc + ScoreRow(top, K), pos + PosRow(top, K), Shards(logits, N, ranks)[..t + 1], K)
  {
    var all := Shards(logits, N, ranks);
    var shards, shard := all[..t], all[t];
    var s2, p2 := ScoreRow(TopK(shard, K), K), PosRow(TopK(shard, K), K);
    SelectionRow(logits, N, ranks[t], K);
    forall x, y | x in Valid(sc, pos) && y in Valid(s2, p2)
      ensures x.pos != y.pos
    {
      var r :| 0 <= r < |shards| && x in TopK(shards[r], K);
      assert x in all[r] && y in shard;
      assert ranks[r] != ranks[t];
    }
    LanesConcat(sc, pos, s2, p2);
    ValidConcat(sc, pos, s2, p2);
    HoldsOneMore(Valid(sc, pos), shards, shard, K, Valid(s2, p2));
    assert all[..t + 1] == shards + [shard];
  }

  // ---- the decode path ----

  lemma StridedInRange(n: nat, N: nat, r: nat)
    requires r < N
    ensures forall c: nat :: c < Own(n, r, N) <==> GlobalOf(c, r, N) < n
  {
    forall c: nat
      ensures c < Own(n, r, N) <==> GlobalOf(c, r, N) < n
    {
      OwnIff(n, r, N, c);
    }
  }

  /** Rank r's columns c·N + r of a row. */
  function Strided(logits: seq<Logit>, N: nat, r: nat): (loc: seq<Logit>)
    requires r < N
    ensures |loc| == Own(|logits|, r, N)
    ensures forall c :: 0 <= c < |loc| ==> GlobalOf(c, r, N) < |logits| && loc[c] == logits[GlobalOf(c, r, N)]
  {
    StridedInRange(|logits|, N, r);
    var n := Own(|logits|, r, N);
    seq(n, c requires 0 <= c < n => logits[GlobalOf(c, r, N)])
  }

  /** The global positions of rank r's local columns. */
  function LocalPositions(n: nat, N: nat, r: nat): (pos: seq<int>)
    ensures |pos| == n
    ensures forall c :: 0 <= c < n ==> pos[c] == GlobalOf(c, r, N)
  {
    seq(n, c requires 0 <= c < n => GlobalOf(c, r, N))
  }

  lemma StridedLanes(logits: seq<Logit>, N: nat, r: nat)
    requires r < N
    ensures var loc := Strided(logits, N, r);
            && LanePairs(loc, LocalPositions(|loc|, N, r))
            && Valid(loc, LocalPositions(|loc|, N, r)) == Shard(logits, N, r)
  {
    hide GlobalOf, Own;
    var loc := Strided(logits, N, r);
    var pos := LocalPositions(|loc|, N, r);
    forall i, j | 0 <= i < j < |loc|
      ensures pos[i] != pos[j]
    {
      Localised(i, r, N);
      Localised(j, r, N);
    }
    forall x | x in Valid(loc, pos)
      ensures x in Shard(logits, N, r)
    {
      var c :| 0 <= c < |loc| && loc[c].Fin? && x == Cand(loc[c].x, pos[c]);
      Localised(c, r, N);
    }
    forall x | x in Shard(logits, N, r)
      ensures x in Valid(loc, pos)
    {
      var c := x.pos / N;
      Globalised(x.pos, N);
      OwnIff(|logits|, r, N, c);
      assert loc[c] == logits[x.pos];
    }
  }

  /** Pads a local selection to the fixed row width. */
  method PadRow(vs: seq<Logit>, gs: seq<int>, K: nat) returns (pv: seq<Logit>, pg: seq<int>)
    requires |vs| == |gs| <= K
    ensures pv == vs + seq(K - |vs|, _ => NegInf) && pg == gs + seq(K - |gs|, _ => -1)
  {
    pv := vs + seq(K - |vs|, _ => NegInf);
    pg := gs + seq(K - |gs|, _ => -1);
  }

  lemma PaddedRows(c: seq<Cand>, n: nat, K: nat)
    requires |c| <= n <= K
    ensures ScoreRow(c, n) + seq(K - n, _ => NegInf) == ScoreRow(c, K)
    ensures PosRow(c, n) + seq(K - n, _ => -1) == PosRow(c, K)
  {}

  /** No selection is larger than the number of lanes it is taken from. */
  lemma {:induction false} SelectionFits(scores: seq<Logit>, pos: seq<int>, k: nat)
    requires LanePairs(scores, pos)
    ensures |TopK(Valid(scores, pos), k)| <= |scores|
  {
    var c := TopK(Valid(scores, pos), k);
    RankedDistinct(c);
    ValidSize(scores, pos);
    SubsetSize(Image(c), Valid(scores, pos));
  }

  lemma {:induction false} ValidSize(scores: seq<Logit>, pos: seq<int>)
    requires |scores| == |pos|
    ensures |Valid(scores, pos)| <= |scores|
  {
    if scores != [] {
      var n := |scores| - 1;
      var s1, p1, s2, p2 := scores[..n], pos[..n], [scores[n]], [pos[n]];
      assert scores == s1 + s2 && pos == p1 + p2;
      ValidConcat(s1, p1, s2, p2);
      ValidSize(s1, p1);
      assert Valid(s2, p2) <= {Cand(if scores[n].Fin? then scores[n].x else 0.0, pos[n])};
      SubsetSize(Valid(s2, p2), {Cand(if scores[n].Fin? then scores[n].x else 0.0, pos[n])});
    }
  }

  /** One rank: select locally, carry global positions, pad. */
  method LocalSelection(loc: seq<Logit>, pos: seq<int>, K: nat) returns (vs: seq<Logit>, gs: seq<int>)
    requires LanePairs(loc, pos)
    ensures vs == ScoreRow(TopK(Valid(loc, pos), K), K) && gs == PosRow(TopK(Valid(loc, pos), K), K)
  {
    vs, gs := StrictTopKRow(loc, pos, K);
    SelectionFits(loc, pos, K);
    if |vs| < K {
      PaddedRows(TopK(Valid(loc, pos), K), |vs|, K);
      vs, gs := PadRow(vs, gs, K);
    }
  }

  lemma NothingGathered(K: nat)
    ensures Gathered([], [], [], K)
  {}

  /** The distributed decode selection, for any concatenation order of the ranks. */
  method SelectDecode(logits: seq<Logit>, N: nat, K: nat, ranks: seq<nat>) returns (gsel: seq<int>)
    requires RankOrder(ranks, N)
    ensures gsel == PosRow(TopK(Global(logits), K), K)
  {
    NothingGathered(K);
    hide TopK, Shard, Global, Valid, HoldsLocals, Covers;
    var candSc, candPos: seq<int> := [], [];
    ghost var shards := Shards(logits, N, ranks);
    for t := 0 to |ranks|
      invariant Gathered(candSc, candPos, shards[..t], K)
      invariant t > 0 ==> |candSc| >= K
    {
      var r := ranks[t];
      var loc := Strided(logits, N, r);
      StridedLanes(logits, N, r);
      var vs, gs := LocalSelection(loc, LocalPositions(|loc|, N, r), K);
      GatherRow(logits, N, ranks, t, candSc, candPos, K);
      candSc, candPos := candSc + vs, candPos + gs;
    }
    assert shards[..|ranks|] == shards;
    ShardsCover(logits, N, ranks);
    UnionSelects(Global(logits), shards, K, Valid(candSc, candPos));
    var _, sel := StrictTopKRow(candSc, candPos, K);
    gsel := sel;
  }

  function Iota(n: nat): (r: seq<int>)
    ensures |r| == n && forall i :: 0 <= i < n ==> r[i] == i
  {
    seq(n, i => i)
  }

  lemma GlobalLanes(logits: seq<Logit>)
    ensures LanePairs(logits, Iota(|logits|)) && Valid(logits, Iota(|logits|)) == Global(logits)
  {}

  /** The reference: one strict selection over the whole row, padded with -1. */
  method SelectBrute(logits: seq<Logit>, K: nat) returns (gsel: seq<int>)
    ensures gsel == PosRow(TopK(Global(logits), K), K)
  {
    GlobalLanes(logits);
    var vs, gs := LocalSelection(logits, Iota(|logits|), K);
    gsel := gs;
  }

  // ---- the causal prefill path ----

  /** A query sees the keys in [0, ke). */
  function Causal(logits: seq<Logit>, ke: int): (r: seq<Logit>)
    ensures |r| == |logits|
    ensures forall p :: 0 <= p < |logits| ==> r[p] == if p < ke then logits[p] else NegInf
  {
    seq(|logits|, p requires 0 <= p < |logits| => if p < ke then logits[p] else NegInf)
  }

  /** Full-width rows of one rank: everything it does not own, or past ke, is masked. */
  function OwnedScores(logits: seq<Logit>, ke: int, N: nat, r: nat): (sc: seq<Logit>)
    requires r < N
    ensures |sc| == |logits|
    ensures forall p :: 0 <= p < |sc| ==> sc[p] == if p % N == r && p < ke then logits[p] else NegInf
  {
    seq(|logits|, p requires 0 <= p < |logits| => if p % N == r && p < ke then logits[p] else NegInf)
  }

  function OwnedPositions(n: nat, ke: int, N: nat, r: nat): (pos: seq<int>)
    requires r < N
    ensures |pos| == n
    ensures forall p :: 0 <= p < n ==> pos[p] == if p % N == r && p < ke then p else -1
  {
    seq(n, p requires 0 <= p < n => if p % N == r && p < ke then p else -1)
  }

  lemma OwnedLanes(logits: seq<Logit>, ke: int, N: nat, r: nat)
    requires r < N
    ensures var sc, pos := OwnedScores(logits, ke, N, r), OwnedPositions(|logits|, ke, N, r);
            LanePairs(sc, pos) && Valid(sc, pos) == Shard(Causal(logits, ke), N, r)
  {}

  /** One query of the prefill selection over its causal range. */
  method SelectPrefill(logits: seq<Logit>, ke: int, N: nat, K: nat, ranks: seq<nat>) returns (gsel: seq<int>)
    requires RankOrder(ranks, N)
    ensures gsel == PosRow(TopK(Global(Causal(logits, ke)), K), K)
  {
    NothingGathered(K);
    hide TopK, Shard, Global, Valid, HoldsLocals, Covers;
    var candSc, candPos: seq<int> := [], [];
    ghost var seen := Causal(logits, ke);
    ghost var shards := Shards(seen, N, ranks);
    for t := 0 to |ranks|
      invariant Gathered(candSc, candPos, shards[..t], K)
      invariant t > 0 ==> |candSc| >= K
    {
      var r := ranks[t];
      OwnedLanes(logits, ke, N, r);
      var vs, gs := LocalSelection(OwnedScores(logits, ke, N, r), OwnedPositions(|logits|, ke, N, r), K);
      GatherRow(seen, N, ranks, t, candSc, candPos, K);
      candSc, candPos := candSc + vs, candPos + gs;
    }
    assert shards[..|ranks|] == shards;
    ShardsCover(seen, N, ranks);
    UnionSelects(Global(seen), shards, K, Valid(candSc, candPos));
    var _, sel := StrictTopKRow(candSc, candPos, K);
    gsel := sel;
  }

  method SelectPrefillBrute(logits: seq<Logit>, ke: int, K: nat) returns (gsel: seq<int>)
    ensures gsel == PosRow(TopK(Global(Causal(logits, ke)), K), K)
  {
    var sc := Causal(logits, ke);
    var pos := seq(|logits|, p => if p < ke then p else -1);
    assert LanePairs(sc, pos) && Valid(sc, pos) == Global(sc) by {
      forall x | x in Global(sc)
        ensures x in Valid(sc, pos)
      {
        assert sc[x.pos].Fin? && pos[x.pos] == x.pos;
      }
    }
    var vs, gs := LocalSelection(sc, pos, K);
    gsel := gs;
  }
}
