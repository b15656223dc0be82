/** The candidate union when every selection is a plain top-k: ties are broken in any way. */
module AnyTies {
  import opened Wrappers
  import opened Ownership
  import opened StrictTopK
  import opened CandidateUnion
  import opened StreamingTopK
  import opened TopKScores

  /** Lanes that carry logits of the row: a finite lane has its own position's logit, and no two
      finite lanes share a position. */
  ghost predicate Carries(sc: seq<Logit>, pos: seq<int>, logits: seq<Logit>) {
    && |sc| == |pos|
    && (forall i :: 0 <= i < |sc| && sc[i].Fin? ==> 0 <= pos[i] < |logits| && logits[pos[i]] == sc[i])
    && (forall i, j :: 0 <= i < j < |sc| && sc[i].Fin? && sc[j].Fin? ==> pos[i] != pos[j])
  }

  /** The positions carried. */
  ghost function Carried(sc: seq<Logit>, pos: seq<int>): (s: set<int>)
    requires |sc| == |pos|
    ensures forall p :: p in s <==> exists i :: 0 <= i < |sc| && sc[i].Fin? && pos[i] == p
  {
    set i | 0 <= i < |sc| && sc[i].Fin? :: pos[i]
  }

  /** Selected lanes as a row of positions, -1 where the lane is invalid. */
  function Picked(sc: seq<Logit>, pos: seq<int>, index: seq<nat>): (row: seq<int>)
    requires |sc| == |pos| && forall i :: 0 <= i < |index| ==> index[i] < |sc|
    ensures |row| == |index|
    ensures forall i :: 0 <= i < |row| ==> row[i] == if sc[index[i]].Fin? then pos[index[i]] else -1
  {
    seq(|index|, i requires 0 <= i < |index| => if sc[index[i]].Fin? then pos[index[i]] else -1)
  }

  // ---- one top-k ----

  lemma PickedIs(sc: seq<Logit>, pos: seq<int>, logits: seq<Logit>, index: seq<nat>, p: int)
    requires Carries(sc, pos, logits) && forall i :: 0 <= i < |index| ==> index[i] < |sc|
    ensures p in KeptSet(Picked(sc, pos, index)) <==> exists i :: 0 <= i < |sc| && sc[i].Fin? && pos[i] == p && i in index
  {
    var row := Picked(sc, pos, index);
    if p in KeptSet(row) {
      var k :| 0 <= k < |row| && row[k] == p;
      assert index[k] in index;
    }
    if i :| 0 <= i < |sc| && sc[i].Fin? && pos[i] == p && i in index {
      var k :| 0 <= k < |index| && index[k] == i;
      assert row[k] == p;
    }
  }

  /** A selection as long as the row misses no lane. */
  lemma AllSelected(index: seq<nat>, n: nat, j: nat)
    requires |index| == n && j < n
    requires forall i :: 0 <= i < n ==> index[i] < n
    requires forall i, k :: 0 <= i < k < n ==> index[i] != index[k]
    ensures j in index
  {
    PermutationCovers(index, n, j);
  }

  /** A selection holds every valid lane, or k valid ones. */
  lemma AllOrFull(sc: seq<Logit>, K: nat, index: seq<nat>)
    requires IsTopIndices(sc, Min(K, |sc|), index)
    ensures (forall j :: 0 <= j < |sc| && sc[j].Fin? ==> j in index)
         || (|index| == K && forall i :: 0 <= i < K ==> sc[index[i]].Fin?)
  {
    var k := Min(K, |sc|);
    if i :| 0 <= i < k && sc[index[i]].NegInf? {
      forall j | 0 <= j < |sc| && sc[j].Fin?
        ensures j in index
      {
      }
    } else if k < K {
      forall j | 0 <= j < |sc|
        ensures j in index
      {
        AllSelected(index, |sc|, j);
      }
    }
  }

  lemma PickedSize(sc: seq<Logit>, pos: seq<int>, logits: seq<Logit>, K: nat, index: seq<nat>)
    requires Carries(sc, pos, logits) && IsTopIndices(sc, Min(K, |sc|), index)
    ensures KeptSet(Picked(sc, pos, index)) <= Carried(sc, pos)
    ensures |KeptSet(Picked(sc, pos, index))| == Min(K, |Carried(sc, pos)|)
  {
    var row, all := Picked(sc, pos, index), Carried(sc, pos);
    forall p
      ensures p in KeptSet(row) <==> exists i :: 0 <= i < |sc| && sc[i].Fin? && pos[i] == p && i in index
    {
      PickedIs(sc, pos, logits, index, p);
    }
    SubsetSize(KeptSet(row), all);
    RowSize(row);
    AllOrFull(sc, K, index);
    if forall j :: 0 <= j < |sc| && sc[j].Fin? ==> j in index {
      assert KeptSet(row) == all;
    } else {
      FullPick(row);
    }
  }

  lemma RowSize(row: seq<int>)
    ensures |KeptSet(row)| <= |row|
  {
    ImageAtMost(row);
    SubsetSize(KeptSet(row), Image(row));
  }

  lemma FullPick(row: seq<int>)
    requires forall i :: 0 <= i < |row| ==> row[i] >= 0
    requires forall i, j :: 0 <= i < j < |row| ==> row[i] != row[j]
    ensures |KeptSet(row)| == |row|
  {
    assert KeptSet(row) == Image(row);
  }

  /** Any top-k of lanes holds a best set of the positions they carry. */
  lemma PickedIsBest(sc: seq<Logit>, pos: seq<int>, logits: seq<Logit>, K: nat, index: seq<nat>)
    requires Carries(sc, pos, logits) && IsTopIndices(sc, Min(K, |sc|), index)
    ensures BestAmong(KeptSet(Picked(sc, pos, index)), Carried(sc, pos), logits, K)
  {
    PickedSize(sc, pos, logits, K, index);
    var s, all := KeptSet(Picked(sc, pos, index)), Carried(sc, pos);
    forall p, q | p in all && p !in s && q in s
      ensures AtMost(logits[p], logits[q])
    {
      PickedIs(sc, pos, logits, index, p);
      PickedIs(sc, pos, logits, index, q);
      var j :| 0 <= j < |sc| && sc[j].Fin? && pos[j] == p;
      var i :| 0 <= i < |sc| && sc[i].Fin? && pos[i] == q && i in index;
      var k :| 0 <= k < |index| && index[k] == i;
      assert j !in index;
      assert AtMost(sc[j], sc[index[k]]);
    }
  }

  lemma RowCarries(logits: seq<Logit>)
    ensures Carries(logits, Iota(|logits|), logits)
    ensures Carried(logits, Iota(|logits|)) == FinitePositions(logits)
  {
    forall p | p in FinitePositions(logits)
      ensures p in Carried(logits, Iota(|logits|))
    {
      assert Iota(|logits|)[p] == p;
    }
  }

  /** One top-k over a whole row selects the scores of the strict selection, however ties fall. */
  lemma {:induction false} OneShotScores(logits: seq<Logit>, K: nat, index: seq<nat>)
    requires IsTopIndices(logits, Min(K, |logits|), index)
    ensures BestSet(KeptSet(Picked(logits, Iota(|logits|), index)), logits, K)
    ensures PositionsOf(TopK(Global(logits), K)) <= FinitePositions(logits)
    ensures Scores(logits, KeptSet(Picked(logits, Iota(|logits|), index)))
         == Scores(logits, PositionsOf(TopK(Global(logits), K)))
  {
    hide Scores, TopK;
    var s := KeptSet(Picked(logits, Iota(|logits|), index));
    RowCarries(logits);
    PickedIsBest(logits, Iota(|logits|), logits, K, index);
    StrictIsBest(logits, K);
    SameScores(s, PositionsOf(TopK(Global(logits), K)), logits, K);
  }

  // ---- the union of local top-ks ----

  /** u includes some best set of a shard. */
  ghost predicate HoldsBest(u: set<int>, shard: set<int>, logits: seq<Logit>, K: nat) {
    exists a :: a <= u && BestAmong(a, shard, logits, K)
  }

  /** A position missing from the union is beaten by K positions in it. */
  lemma MissingIsBeaten(u: set<int>, shard: set<int>, logits: seq<Logit>, K: nat, p: int) returns (a: set<int>)
    requires HoldsBest(u, shard, logits, K) && p in shard && p !in u
    ensures a <= u && |a| == K && p in FinitePositions(logits) && a <= FinitePositions(logits)
    ensures forall q :: q in a ==> AtMost(logits[p], logits[q])
  {
    a :| a <= u && BestAmong(a, shard, logits, K);
    SmallIsAll(a, shard, K, p);
  }

  lemma SmallIsAll(a: set<int>, all: set<int>, K: nat, p: int)
    requires a <= all && |a| == Min(K, |all|) && p in all && p !in a
    ensures |a| == K
  {
    if |a| == |all| { SubsetOfSameSize(a, all); }
  }

  lemma LeftOut(a: set<int>, s: set<int>) returns (t: int)
    requires !(a <= s)
    ensures t in a && t !in s
  {
    var rest := a - s;
    assert forall y :: y in a ==> y in s || y in rest;
    t := Member(rest);
  }

  /** K positions all at or above p: whatever best set of the union is taken, it does not go below p. */
  lemma BestIsAbove(s: set<int>, u: set<int>, logits: seq<Logit>, K: nat, a: set<int>, p: int, q: int)
    requires BestAmong(s, u, logits, K) && a <= u && |a| == K && q in s && p in FinitePositions(logits)
    requires forall t :: t in a ==> t in FinitePositions(logits) && AtMost(logits[p], logits[t])
    ensures q in FinitePositions(logits) && AtMost(logits[p], logits[q])
  {
    if q !in a {
      if a <= s {
        SubsetSize(a + {q}, s);
      }
      var t := LeftOut(a, s);
      assert AtMost(logits[p], logits[t]) && AtMost(logits[t], logits[q]);
    }
  }

  /** u includes a best set of every shard. */
  ghost predicate HoldsAllBest(u: set<int>, shards: seq<set<int>>, logits: seq<Logit>, K: nat) {
    forall r :: 0 <= r < |shards| ==> HoldsBest(u, shards[r], logits, K)
  }

  function UnionOf(shards: seq<set<int>>): set<int> {
    if shards == [] then {} else shards[0] + UnionOf(shards[1..])
  }

  lemma {:induction false} InUnion(shards: seq<set<int>>, p: int)
    ensures p in UnionOf(shards) <==> exists r :: 0 <= r < |shards| && p in shards[r]
  {
    if shards != [] {
      InUnion(shards[1..], p);
      assert forall r :: 1 <= r < |shards| ==> shards[r] == shards[1..][r - 1];
    }
  }

  /** A best set of the union of local best sets is a best set of everything. */
  lemma {:induction false} UnionOfBest(logits: seq<Logit>, shards: seq<set<int>>, u: set<int>, s: set<int>, K: nat)
    requires HoldsAllBest(u, shards, logits, K) && FinitePositions(logits) <= UnionOf(shards)
    requires BestAmong(s, u, logits, K)
    ensures BestSet(s, logits, K)
  {
    hide HoldsBest;
    var all := FinitePositions(logits);
    SubsetSize(u, all);
    forall p | p in all && p !in u
      ensures |u| >= K
      ensures forall q :: q in s ==> AtMost(logits[p], logits[q])
    {
      InUnion(shards, p);
      var r :| 0 <= r < |shards| && p in shards[r];
      var a := MissingIsBeaten(u, shards[r], logits, K, p);
      SubsetSize(a, u);
      forall q | q in s ensures AtMost(logits[p], logits[q]) {
        BestIsAbove(s, u, logits, K, a, p, q);
      }
    }
    if |u| < K {
      assert u == all;
    }
  }

  // ---- when the choice is forced ----

  /** No key left out scores the same as a key selected: the K-th score is not tied. */
  ghost predicate Untied(logits: seq<Logit>, s: set<int>)
    requires s <= FinitePositions(logits)
  {
    forall p, q :: p in FinitePositions(logits) && p !in s && q in s ==> logits[p] != logits[q]
  }

  /** A best set is the only one exactly when its K-th score is not tied. */
  lemma BestIsUniqueIff(logits: seq<Logit>, s: set<int>, K: nat)
    requires BestSet(s, logits, K)
    ensures (forall b :: BestSet(b, logits, K) ==> b == s) <==> Untied(logits, s)
  {
    if Untied(logits, s) {
      forall b | BestSet(b, logits, K)
        ensures b == s
      {
        if b != s {
          var x, y := OnlyInOne(s, b, logits, K);
        }
      }
    } else {
      var p, q :| p in FinitePositions(logits) && p !in s && q in s && logits[p] == logits[q];
      Exchange(s, logits, K, q, p);
      assert p in s - {q} + {p};
    }
  }

  lemma BestIsEmptyIff(s: set<int>, logits: seq<Logit>, K: nat)
    requires BestSet(s, logits, K)
    ensures s != {} <==> K > 0 && exists p :: 0 <= p < |logits| && logits[p].Fin?
  {
    var all := FinitePositions(logits);
    if p :| 0 <= p < |logits| && logits[p].Fin? {
      assert p in all;
    }
    if s != {} {
      var p := Member(s);
      assert logits[p].Fin?;
    }
  }

  // ---- the selection ----

  /** One rank: a top-k of its own row, global positions, padding. */
  method LocalTop(loc: seq<Logit>, pos: seq<int>, logits: seq<Logit>, K: nat) returns (vs: seq<Logit>, gs: seq<int>)
    requires Carries(loc, pos, logits)
    ensures |vs| == |gs| == K && Carries(vs, gs, logits)
    ensures BestAmong(Carried(vs, gs), Carried(loc, pos), logits, K)
  {
    var k := Min(K, |loc|);
    var index := ChooseTop(loc, k);
    vs, gs := Gather(loc, index), Picked(loc, pos, index);
    PickedIsBest(loc, pos, logits, K, index);
    vs, gs := PadRow(vs, gs, K);
    CarriedRow(loc, pos, logits, index, vs, gs);
  }

  /** The padded row carries what was picked. */
  lemma CarriedRow(loc: seq<Logit>, pos: seq<int>, logits: seq<Logit>, index: seq<nat>, vs: seq<Logit>, gs: seq<int>)
    requires Carries(loc, pos, logits) && |index| <= |vs| == |gs|
    requires forall i :: 0 <= i < |index| ==> index[i] < |loc|
    requires forall i, j :: 0 <= i < j < |index| ==> index[i] != index[j]
    requires forall i :: 0 <= i < |vs| ==> vs[i] == if i < |index| then loc[index[i]] else NegInf
    requires forall i :: 0 <= i < |gs| ==> gs[i] == if i < |index| then Picked(loc, pos, index)[i] else -1
    ensures Carries(vs, gs, logits) && Carried(vs, gs) == KeptSet(Picked(loc, pos, index))
  {
    var row := Picked(loc, pos, index);
    forall p | p in KeptSet(row)
      ensures p in Carried(vs, gs)
    {
      var i :| 0 <= i < |row| && row[i] == p;
      assert vs[i].Fin? && gs[i] == p;
    }
    forall p | p in Carried(vs, gs)
      ensures p in KeptSet(row)
    {
      var i :| 0 <= i < |vs| && vs[i].Fin? && gs[i] == p;
      assert row[i] == p;
    }
  }

  /** The finite positions rank r owns. */
  ghost function OwnedBy(logits: seq<Logit>, N: nat, r: nat): (s: set<int>)
    requires N > 0
    ensures forall p :: p in s <==> p in FinitePositions(logits) && p % N == r
  {
    set p | p in FinitePositions(logits) && p % N == r
  }

  lemma StridedCarries(logits: seq<Logit>, N: nat, r: nat)
    requires r < N
    ensures var loc := Strided(logits, N, r);
            && Carries(loc, LocalPositions(|loc|, N, r), logits)
            && Carried(loc, LocalPositions(|loc|, N, r)) == OwnedBy(logits, N, r)
  {
    hide GlobalOf, Own;
    var loc := Strided(logits, N, r);
    var pos := LocalPositions(|loc|, N, r);
    forall i, j | 0 <= i < j < |loc|
      ensures pos[i] != pos[j]
    {
      Localised(i, r, N);
      Localised(j, r, N);
    }
    forall p | p in Carried(loc, pos)
      ensures p in OwnedBy(logits, N, r)
    {
      var c :| 0 <= c < |loc| && loc[c].Fin? && p == pos[c];
      Localised(c, r, N);
    }
    forall p | p in OwnedBy(logits, N, r)
      ensures p in Carried(loc, pos)
    {
      Globalised(p, N);
      OwnIff(|logits|, r, N, p / N);
      assert pos[p / N] == p;
    }
  }

  lemma CarriedJoin(s1: seq<Logit>, p1: seq<int>, s2: seq<Logit>, p2: seq<int>, p: int)
    requires |s1| == |p1| && |s2| == |p2|
    ensures p in Carried(s1 + s2, p1 + p2) <==> p in Carried(s1, p1) || p in Carried(s2, p2)
  {
    var sc, pos := s1 + s2, p1 + p2;
    if i :| 0 <= i < |s1| && s1[i].Fin? && p1[i] == p {
      assert sc[i].Fin? && pos[i] == p;
    }
    if i :| 0 <= i < |s2| && s2[i].Fin? && p2[i] == p {
      assert sc[|s1| + i].Fin? && pos[|s1| + i] == p;
    }
  }

  /** Appending a row whose positions are new. */
  lemma CarriesMore(s1: seq<Logit>, p1: seq<int>, s2: seq<Logit>, p2: seq<int>, logits: seq<Logit>)
    requires Carries(s1, p1, logits) && Carries(s2, p2, logits) && Carried(s1, p1) !! Carried(s2, p2)
    ensures Carries(s1 + s2, p1 + p2, logits)
    ensures Carried(s1 + s2, p1 + p2) == Carried(s1, p1) + Carried(s2, p2)
  {
    var sc, pos := s1 + s2, p1 + p2;
    forall p
      ensures p in Carried(sc, pos) <==> p in Carried(s1, p1) || p in Carried(s2, p2)
    {
      CarriedJoin(s1, p1, s2, p2, p);
    }
    hide Carried;
    forall i, j | 0 <= i < j < |sc| && sc[i].Fin? && sc[j].Fin?
      ensures pos[i] != pos[j]
    {
      if i < |s1| <= j {
        assert p1[i] in Carried(s1, p1) && p2[j - |s1|] in Carried(s2, p2);
      }
    }
  }

  /** What the gathered lanes hold after the first t ranks. */
  ghost predicate GatheredBest(sc: seq<Logit>, pos: seq<int>, logits: seq<Logit>, N: nat, ranks: seq<nat>, t: nat, K: nat) {
    && N > 0 && t <= |ranks| && Carries(sc, pos, logits)
    && (forall p :: p in Carried(sc, pos) ==> p % N in ranks[..t])
    && (forall k :: 0 <= k < t ==> HoldsBest(Carried(sc, pos), OwnedBy(logits, N, ranks[k]), logits, K))
  }

  lemma GatherNext(sc: seq<Logit>, pos: seq<int>, vs: seq<Logit>, gs: seq<int>, logits: seq<Logit>,
                   N: nat, ranks: seq<nat>, t: nat, K: nat)
    requires RankOrder(ranks, N) && t < |ranks| && GatheredBest(sc, pos, logits, N, ranks, t, K)
    requires Carries(vs, gs, logits) && BestAmong(Carried(vs, gs), OwnedBy(logits, N, ranks[t]), logits, K)
    ensures GatheredBest(sc + vs, pos + gs, logits, N, ranks, t + 1, K)
  {
    hide Carried, BestAmong;
    var u, a := Carried(sc, pos), Carried(vs, gs);
    BestIsPart(a, OwnedBy(logits, N, ranks[t]), logits, K);
    assert ranks[t] !in ranks[..t] by {
      assert forall k :: 0 <= k < t ==> ranks[..t][k] == ranks[k];
    }
    assert forall p :: p in a ==> p % N == ranks[t];
    assert u !! a;
    CarriesMore(sc, pos, vs, gs, logits);
    forall k | 0 <= k < t + 1
      ensures HoldsBest(u + a, OwnedBy(logits, N, ranks[k]), logits, K)
    {
      if k < t {
        var b :| b <= u && BestAmong(b, OwnedBy(logits, N, ranks[k]), logits, K);
        assert b <= u + a;
      } else {
        assert a <= u + a;
      }
    }
    assert ranks[..t + 1] == ranks[..t] + [ranks[t]];
  }

  lemma BestIsPart(s: set<int>, all: set<int>, logits: seq<Logit>, K: nat)
    requires BestAmong(s, all, logits, K)
    ensures s <= all
  {}

  lemma AllGathered(sc: seq<Logit>, pos: seq<int>, logits: seq<Logit>, N: nat, ranks: seq<nat>, s: set<int>, K: nat)
    requires RankOrder(ranks, N) && GatheredBest(sc, pos, logits, N, ranks, |ranks|, K)
    requires BestAmong(s, Carried(sc, pos), logits, K)
    ensures BestSet(s, logits, K)
  {
    hide HoldsBest, BestAmong, Carried;
    var shards := seq(|ranks|, k requires 0 <= k < |ranks| => OwnedBy(logits, N, ranks[k]));
    forall p | p in FinitePositions(logits)
      ensures p in UnionOf(shards)
    {
      PermutationCovers(ranks, N, p % N);
      var k :| 0 <= k < |ranks| && ranks[k] == p % N;
      assert p in shards[k];
      InUnion(shards, p);
    }
    UnionOfBest(logits, shards, Carried(sc, pos), s, K);
  }

  /** The candidate union with a plain top-k on every rank and over the gathered candidates: a best
      set of all logits, in any order, padded with -1. */
  method SelectAnyTies(logits: seq<Logit>, N: nat, K: nat, ranks: seq<nat>) returns (gsel: seq<int>)
    requires RankOrder(ranks, N)
    ensures |gsel| == K && BestSet(KeptSet(gsel), logits, K)
    ensures forall i :: 0 <= i < K ==> -1 <= gsel[i] < |logits|
    ensures forall i, j :: 0 <= i < j < K && gsel[i] >= 0 && gsel[j] >= 0 ==> gsel[i] != gsel[j]
  {
    var candSc, candPos: seq<int> := [], [];
    for t := 0 to |ranks|
      invariant GatheredBest(candSc, candPos, logits, N, ranks, t, K)
      invariant t > 0 ==> |candSc| >= K
    {
      hide GatheredBest, BestAmong;
      var r := ranks[t];
      var loc := Strided(logits, N, r);
      StridedCarries(logits, N, r);
      var vs, gs := LocalTop(loc, LocalPositions(|loc|, N, r), logits, K);
      GatherNext(candSc, candPos, vs, gs, logits, N, ranks, t, K);
      candSc, candPos := candSc + vs, candPos + gs;
    }
    var index := ChooseTop(candSc, K);
    gsel := Picked(candSc, candPos, index);
    PickedIsBest(candSc, candPos, logits, K, index);
    AllGathered(candSc, candPos, logits, N, ranks, KeptSet(gsel), K);
  }
}
