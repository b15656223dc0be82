/** What any top-k within the contract agrees on: how many keys it returns and their scores. */
module TopKScores {
  import opened Wrappers
  import opened StrictTopK
  import opened CandidateUnion
  import opened StreamingTopK

  ghost function FinitePositions(logits: seq<Logit>): (s: set<int>)
    ensures forall p :: p in s <==> 0 <= p < |logits| && logits[p].Fin?
  {
    set p | 0 <= p < |logits| && logits[p].Fin?
  }

  ghost function KeptSet(out: seq<int>): (s: set<int>)
    ensures forall p :: p in s <==> p in out && p >= 0
  {
    set p | p in out && p >= 0
  }

  /** s holds min(K, #all) of the positions in all, and nothing left out scores above anything held. */
  ghost predicate BestAmong(s: set<int>, all: set<int>, logits: seq<Logit>, K: nat) {
    && s <= all <= FinitePositions(logits)
    && |s| == Min(K, |all|)
    && (forall p, q :: p in all && p !in s && q in s ==> AtMost(logits[p], logits[q]))
  }

  /** A best set of all finite positions of a row. */
  ghost predicate BestSet(s: set<int>, logits: seq<Logit>, K: nat) {
    BestAmong(s, FinitePositions(logits), logits, K)
  }

  lemma KeptInRange(best: seq<Logit>, out: seq<int>, logits: seq<Logit>, K: nat)
    requires Kept(best, out, logits, K)
    ensures KeptSet(out) <= FinitePositions(logits)
  {}

  /** A row with a free slot holds every finite position, and has room for one more. */
  lemma FreeSlot(best: seq<Logit>, out: seq<int>, logits: seq<Logit>, K: nat, i: nat)
    requires Kept(best, out, logits, K) && i < K && out[i] == -1
    ensures KeptSet(out) == FinitePositions(logits) && |KeptSet(out)| < K
  {
    KeptInRange(best, out, logits, K);
    assert best[i].NegInf?;
    forall p | p in FinitePositions(logits)
      ensures p in KeptSet(out)
    {
      assert !AtMost(logits[p], best[i]);
    }
    assert -1 in Image(out);
    SubsetSize(KeptSet(out), Image(out) - {-1});
    ImageAtMost(out);
  }

  /** A row without a free slot holds K positions. */
  lemma FullRow(best: seq<Logit>, out: seq<int>, logits: seq<Logit>, K: nat)
    requires Kept(best, out, logits, K) && forall i :: 0 <= i < K ==> out[i] != -1
    ensures |KeptSet(out)| == K
  {
    assert forall i :: 0 <= i < K ==> best[i].Fin?;
    assert KeptSet(out) == Image(out);
  }

  /** The streamed row is such a set: it has all K slots filled, or holds every finite position. */
  lemma KeptIsBest(best: seq<Logit>, out: seq<int>, logits: seq<Logit>, K: nat)
    requires Kept(best, out, logits, K)
    ensures BestSet(KeptSet(out), logits, K)
  {
    KeptInRange(best, out, logits, K);
    SubsetSize(KeptSet(out), FinitePositions(logits));
    if i :| 0 <= i < K && out[i] == -1 {
      FreeSlot(best, out, logits, K, i);
    } else {
      FullRow(best, out, logits, K);
    }
    forall p, q | p in FinitePositions(logits) && p !in KeptSet(out) && q in KeptSet(out)
      ensures AtMost(logits[p], logits[q])
    {
      var i :| 0 <= i < K && out[i] == q;
      assert best[i].Fin? && p !in out;
    }
  }

  lemma {:induction false} ImageAtMost(s: seq<int>)
    ensures |Image(s)| <= |s|
  {
    if s != [] {
      ImageAtMost(s[..|s| - 1]);
    }
  }

  function CountKept(out: seq<int>): nat {
    if out == [] then 0 else (if out[0] >= 0 then 1 else 0) + CountKept(out[1..])
  }

  lemma {:induction false} CountIsSize(out: seq<int>)
    requires forall i, j :: 0 <= i < j < |out| && out[i] >= 0 && out[j] >= 0 ==> out[i] != out[j]
    ensures CountKept(out) == |KeptSet(out)|
  {
    if out != [] {
      CountIsSize(out[1..]);
      if out[0] >= 0 {
        assert KeptSet(out) == KeptSet(out[1..]) + {out[0]};
      } else {
        assert KeptSet(out) == KeptSet(out[1..]);
      }
    } else {
      assert KeptSet(out) == {};
    }
  }

  /** Exactly min(K, #finite) slots hold an index; the rest are -1. */
  lemma {:induction false} StreamCount(best: seq<Logit>, out: seq<int>, logits: seq<Logit>, K: nat)
    requires Kept(best, out, logits, K)
    ensures CountKept(out) == Min(K, |FinitePositions(logits)|)
  {
    KeptIsBest(best, out, logits, K);
    forall i, j | 0 <= i < j < |out| && out[i] >= 0 && out[j] >= 0
      ensures out[i] != out[j]
    {
      assert best[i].Fin? && best[j].Fin?;
    }
    CountIsSize(out);
  }

  ghost function PositionsOf(c: seq<Cand>): (s: set<int>)
    ensures forall p :: p in s <==> exists i :: 0 <= i < |c| && c[i].pos == p
  {
    set i | 0 <= i < |c| :: c[i].pos
  }

  /** The strict selection is such a set as well. */
  lemma {:induction false} StrictIsBest(logits: seq<Logit>, K: nat)
    ensures BestSet(PositionsOf(TopK(Global(logits), K)), logits, K)
  {
    var top, all := TopK(Global(logits), K), FinitePositions(logits);
    var s := PositionsOf(top);
    forall i | 0 <= i < |top|
      ensures top[i].pos in all && logits[top[i].pos] == Fin(top[i].score)
    {
      assert top[i] in top;
    }
    PositionsSize(top, logits, K);
    SubsetSize(s, all);
    if |top| < K {
      forall p | p in all
        ensures p in s
      {
        assert Cand(logits[p].x, p) in top;
      }
      assert s == all;
    }
    forall p, q | p in all && p !in s && q in s
      ensures AtMost(logits[p], logits[q])
    {
      var i :| 0 <= i < |top| && top[i].pos == q;
      var x := Cand(logits[p].x, p);
      assert x in Global(logits) && x !in top && top[i] in top;
      assert Before(top[i], x);
    }
  }

  lemma {:induction false} PositionsSize(top: seq<Cand>, logits: seq<Logit>, K: nat)
    requires top == TopK(Global(logits), K)
    ensures |PositionsOf(top)| == |top|
  {
    var pos := seq(|top|, i requires 0 <= i < |top| => top[i].pos);
    forall i, j | 0 <= i < j < |top|
      ensures pos[i] != pos[j]
    {
      assert Before(top[i], top[j]) && top[i] in top && top[j] in top;
    }
    forall p | p in PositionsOf(top)
      ensures p in pos
    {
      var i :| 0 <= i < |top| && top[i].pos == p;
      assert pos[i] == p;
    }
    assert PositionsOf(top) == Image(pos);
  }

  // ---- all such sets carry the same scores ----

  /** The multiset of the scores at the positions of s. */
  ghost function Scores(logits: seq<Logit>, s: set<int>): multiset<real>
    requires s <= FinitePositions(logits)
    decreases |s|
  {
    if s == {} then multiset{}
    else
      var p :| p in s;
      Scores(logits, s - {p}) + multiset{logits[p].x}
  }

  lemma {:induction false} ScoresWithout(logits: seq<Logit>, s: set<int>, p: int)
    requires s <= FinitePositions(logits) && p in s
    ensures Scores(logits, s) == Scores(logits, s - {p}) + multiset{logits[p].x}
    decreases |s|
  {
    var q :| q in s && Scores(logits, s) == Scores(logits, s - {q}) + multiset{logits[q].x};
    if q != p {
      ScoresWithout(logits, s - {q}, p);
      ScoresWithout(logits, s - {p}, q);
      assert s - {q} - {p} == s - {p} - {q};
    }
  }

  /** Exchanging x for an equally scored y keeps a selection a selection. */
  lemma {:induction false} Exchange(a: set<int>, logits: seq<Logit>, K: nat, x: int, y: int)
    requires BestSet(a, logits, K) && x in a && y !in a && y in FinitePositions(logits)
    requires logits[x] == logits[y]
    ensures BestSet(a - {x} + {y}, logits, K)
    ensures Scores(logits, a - {x} + {y}) == Scores(logits, a)
  {
    var a' := a - {x} + {y};
    forall p, q | p in FinitePositions(logits) && p !in a' && q in a'
      ensures AtMost(logits[p], logits[q])
    {
      assert q == y ==> AtMost(logits[y], logits[y]);
      assert AtMost(logits[y], logits[if q == y then x else q]);
      if p != x {
        assert AtMost(logits[p], logits[if q == y then x else q]);
      }
    }
    ScoresWithout(logits, a, x);
    ScoresWithout(logits, a', y);
    assert a' - {y} == a - {x};
  }

  lemma SubsetOfSameSize(a: set<int>, b: set<int>)
    requires a <= b && |a| == |b|
    ensures a == b
  {
    forall x | x in b
      ensures x in a
    {
      assert |b - {x}| == |b| - 1;
      if x !in a { SubsetSize(a, b - {x}); }
    }
  }

  lemma Member<T>(s: set<T>) returns (x: T)
    requires s != {}
    ensures x in s
  {
    x :| x in s;
  }

  lemma OneOutside(a: set<int>, b: set<int>) returns (x: int)
    requires |a| == |b| && a != b
    ensures x in a && x !in b
  {
    var rest := a - b;
    if rest == {} {
      assert forall y :: y in a ==> y in b || y in rest;
      SubsetOfSameSize(a, b);
    }
    x := Member(rest);
  }

  /** One member only of the first, one only of the second: their scores are equal. */
  lemma OnlyInOne(a: set<int>, b: set<int>, logits: seq<Logit>, K: nat) returns (x: int, y: int)
    requires BestSet(a, logits, K) && BestSet(b, logits, K) && a != b
    ensures x in a && x !in b && y in b && y !in a
    ensures x in FinitePositions(logits) && y in FinitePositions(logits) && logits[x] == logits[y]
  {
    x := OneOutside(a, b);
    y := OneOutside(b, a);
    assert AtMost(logits[x], logits[y]) && AtMost(logits[y], logits[x]);
  }

  /** Two selections that both satisfy the contract differ only in which of equally scored keys
      they hold. */
  lemma {:induction false} SameScores(a: set<int>, b: set<int>, logits: seq<Logit>, K: nat)
    requires BestSet(a, logits, K) && BestSet(b, logits, K)
    ensures Scores(logits, a) == Scores(logits, b)
    decreases |a - b|
  {
    if a != b {
      hide Scores, BestSet;
      var x, y := OnlyInOne(a, b, logits, K);
      Exchange(a, logits, K, x, y);
      assert a - {x} + {y} - b == (a - b) - {x};
      assert x in a - b;
      SameScores(a - {x} + {y}, b, logits, K);
    }
  }

  /** Streaming under any tie-break returns the scores of the strict selection. */
  lemma {:induction false} StreamScores(best: seq<Logit>, out: seq<int>, logits: seq<Logit>, K: nat)
    requires Kept(best, out, logits, K)
    ensures KeptSet(out) <= FinitePositions(logits)
    ensures PositionsOf(TopK(Global(logits), K)) <= FinitePositions(logits)
    ensures Scores(logits, KeptSet(out)) == Scores(logits, PositionsOf(TopK(Global(logits), K)))
  {
    KeptIsBest(best, out, logits, K);
    StrictIsBest(logits, K);
    SameScores(KeptSet(out), PositionsOf(TopK(Global(logits), K)), logits, K);
  }
}
