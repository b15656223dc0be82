/** Recombining the normalised outputs and log-sum-exps of disjoint KV shards. */
module Recombine {
  import opened Weights
  import opened Wrappers
  import opened Softmax
  import opened FinishAttention

  lemma MaxTerms(a: Lse, b: Lse, m: Mass)
    requires MaxLse(a, b) == Log(m)
    ensures ExpLse(a, m) + ExpLse(b, m) > 0.0
  {}

  /** out = Σ outₛ·exp(lseₛ - m) / Σ exp(lseₛ - m), lse = m + ln Σ exp(lseₛ - m), with m the larger
      lse. None is NaN: both shards returned -inf, and -inf - (-inf) is not a number. */
  function RecombineTwo(a: Partial, b: Partial): Option<Partial> {
    match MaxLse(a.lse, b.lse)
    case MinusInf => None
    case Log(m) =>
      var wa, wb := ExpLse(a.lse, m), ExpLse(b.lse, m);
      MaxTerms(a.lse, b.lse, m);
      ProductPositive(m, wa + wb);
      Some(Partial(WeightedMean(a.out, wa, b.out, wb, 0.0), Log(m * (wa + wb))))
  }

  lemma MassRestored(m: Mass, x: real, y: real)
    ensures m * (x * (1.0 / m) + y * (1.0 / m)) == x + y
  {}

  lemma RecombineTwoMean(a: Partial, b: Partial)
    ensures RecombineTwo(a, b).None? <==> a.lse.MinusInf? && b.lse.MinusInf?
    ensures RecombineTwo(a, b).Some? ==>
              && RecombineTwo(a, b).value.out == WeightedMean(a.out, MassOf(a.lse), b.out, MassOf(b.lse), 0.0)
              && MassOf(RecombineTwo(a, b).value.lse) == MassOf(a.lse) + MassOf(b.lse)
  {
    var top := MaxLse(a.lse, b.lse);
    if top.Log? {
      hide WeightedMean;
      var m := top.mass;
      QuotientPositive(1.0, m);
      ScaledMean(a.out, MassOf(a.lse), b.out, MassOf(b.lse), 0.0, 1.0 / m, ExpLse(a.lse, m), ExpLse(b.lse, m), 0.0);
      MassRestored(m, MassOf(a.lse), MassOf(b.lse));
    }
  }

  /** The merge of two shards is the partial of their union, and NaN exactly when both are empty. */
  lemma RecombineTwoExact(w: Weight, a: seq<Lane>, b: seq<Lane>, p: Partial, q: Partial)
    requires p == PartialOf(w, a) && q == PartialOf(w, b)
    ensures RecombineTwo(p, q).None? <==> AllMasked(a) && AllMasked(b)
    ensures RecombineTwo(p, q).Some? ==> RecombineTwo(p, q).value == PartialOf(w, a + b)
  {
    hide Sum, WeightedMean, RecombineTwo;
    PartialMeaning(w, a);
    PartialMeaning(w, b);
    MaskedJoin(w, a, b, p, q);
    RecombineTwoMean(p, q);
    MeanIsQuotient(p.out, MassOf(p.lse), q.out, MassOf(q.lse), 0.0, Num(w, a + b, 0), Den(w, a + b, 0));
  }

  // ---- any merge order ----

  /** An order in which shards are merged pairwise. */
  datatype MergeTree = Leaf(shard: seq<Lane>) | Node(left: MergeTree, right: MergeTree)

  function Leaves(t: MergeTree): seq<Lane> {
    match t
    case Leaf(shard) => shard
    case Node(l, r) => Leaves(l) + Leaves(r)
  }

  /** Evaluates the merges; a NaN operand makes a NaN result. */
  function Evaluate(w: Weight, t: MergeTree): Option<Partial> {
    match t
    case Leaf(shard) => Some(PartialOf(w, shard))
    case Node(l, r) =>
      var p, q := Evaluate(w, l), Evaluate(w, r);
      if p.None? || q.None? then None else RecombineTwo(p.value, q.value)
  }

  /** No merge meets two empty operands. */
  ghost predicate NeverBothEmpty(t: MergeTree) {
    match t
    case Leaf(_) => true
    case Node(l, r) => NeverBothEmpty(l) && NeverBothEmpty(r) && !(AllMasked(Leaves(l)) && AllMasked(Leaves(r)))
  }

  /** Every merge order gives the partial of all the candidates, unless some merge on the way
      meets two empty shards: then, and only then, the result is NaN. */
  lemma {:induction false} MergeTreeExact(w: Weight, t: MergeTree)
    ensures Evaluate(w, t).Some? <==> NeverBothEmpty(t)
    ensures Evaluate(w, t).Some? ==> Evaluate(w, t).value == PartialOf(w, Leaves(t))
  {
    match t
    case Leaf(_) =>
    case Node(l, r) =>
      MergeTreeExact(w, l);
      MergeTreeExact(w, r);
      RecombineTwoExact(w, Leaves(l), Leaves(r), PartialOf(w, Leaves(l)), PartialOf(w, Leaves(r)));
  }

  /** A NaN does arise: two empty shards merged before a third that holds a candidate, although
      merging the third in first gives the attention output. */
  lemma EmptyPairPoisons(w: Weight, key: Key)
    ensures Evaluate(w, Node(Node(Leaf([]), Leaf([])), Leaf([Some(key)]))) == None
    ensures Evaluate(w, Node(Leaf([]), Node(Leaf([]), Leaf([Some(key)])))) == Some(PartialOf(w, [Some(key)]))
  {
    hide PartialOf, RecombineTwo;
    var empty: seq<Lane>, full: seq<Lane> := [], [Some(key)];
    RecombineTwoExact(w, empty, empty, PartialOf(w, empty), PartialOf(w, empty));
    assert full[0].Some?;
    assert empty + empty == empty && empty + full == full;
    RecombineTwoExact(w, empty, full, PartialOf(w, empty), PartialOf(w, full));
    assert Evaluate(w, Node(Leaf(empty), Leaf(full))) == Some(PartialOf(w, full));
  }

  lemma DropSame(a: seq<Lane>, b: seq<Lane>, i: nat)
    requires a != [] && i < |b| && b[i] == a[0]
    requires multiset(a) == multiset(b)
    ensures multiset(a[1..]) == multiset(b[..i] + b[i + 1..])
  {
    var x, rest := a[0], b[..i] + b[i + 1..];
    assert a == [x] + a[1..];
    assert b == b[..i] + [x] + b[i + 1..];
    assert multiset(a[1..]) == multiset(a) - multiset{x};
    assert multiset(rest) == multiset(b) - multiset{x};
  }

  lemma {:induction false} SumWithout(f: Lane -> real, b: seq<Lane>, i: nat)
    requires i < |b|
    ensures Sum(f, b) == f(b[i]) + Sum(f, b[..i] + b[i + 1..])
  {
    assert b == b[..i] + b[i..];
    SumConcat(f, b[..i], b[i..]);
    SumConcat(f, b[..i], b[i + 1..]);
    assert b[i..][1..] == b[i + 1..];
  }

  lemma {:induction false} SumPermutes(f: Lane -> real, a: seq<Lane>, b: seq<Lane>)
    requires multiset(a) == multiset(b)
    ensures Sum(f, a) == Sum(f, b)
  {
    if a == [] {
      assert |b| == |multiset(b)| == 0;
    } else {
      assert a[0] in multiset(b);
      var i :| 0 <= i < |b| && b[i] == a[0];
      DropSame(a, b, i);
      SumPermutes(f, a[1..], b[..i] + b[i + 1..]);
      SumWithout(f, b, i);
    }
  }

  /** The partial of a candidate set does not depend on the order of the candidates. */
  lemma PartialPermutes(w: Weight, a: seq<Lane>, b: seq<Lane>)
    requires multiset(a) == multiset(b)
    ensures PartialOf(w, a) == PartialOf(w, b)
    ensures Attention(w, a) == Attention(w, b)
  {
    SumPermutes(Weigh(w, 0), a, b);
    SumPermutes(WeighValue(w, 0), a, b);
  }

  /** So two merge orders over any two partitions of the same candidates agree. */
  lemma {:induction false} MergeOrderIrrelevant(w: Weight, s: MergeTree, t: MergeTree)
    requires multiset(Leaves(s)) == multiset(Leaves(t))
    requires NeverBothEmpty(s) && NeverBothEmpty(t)
    ensures Evaluate(w, s) == Evaluate(w, t) == Some(PartialOf(w, Leaves(s)))
  {
    MergeTreeExact(w, s);
    MergeTreeExact(w, t);
    PartialPermutes(w, Leaves(s), Leaves(t));
  }

  // ---- all shards at once ----

  function TopLse(ps: seq<Partial>): Lse {
    if ps == [] then MinusInf else MaxLse(ps[0].lse, TopLse(ps[1..]))
  }

  /** Σ exp(lseₛ)·r */
  function MassSum(ps: seq<Partial>, r: real): real {
    if ps == [] then 0.0 else MassOf(ps[0].lse) * r + MassSum(ps[1..], r)
  }

  /** Σ outₛ·(exp(lseₛ)·r) */
  function OutSum(ps: seq<Partial>, r: real): real {
    if ps == [] then 0.0 else ps[0].out * (MassOf(ps[0].lse) * r) + OutSum(ps[1..], r)
  }

  lemma {:induction false} MassNonNegative(ps: seq<Partial>, r: real)
    requires r > 0.0
    ensures MassSum(ps, r) >= 0.0
  {
    if ps != [] {
      MassNonNegative(ps[1..], r);
      TermSign(ps[0].lse, r);
    }
  }

  lemma TermSign(l: Lse, r: real)
    requires r > 0.0
    ensures MassOf(l) * r >= 0.0 && (l.Log? ==> MassOf(l) * r > 0.0)
  {}

  /** The shard of the largest lse keeps the sum of the weights positive. */
  lemma {:induction false} TopWeighs(ps: seq<Partial>, r: real)
    requires TopLse(ps).Log? && r > 0.0
    ensures MassSum(ps, r) > 0.0
  {
    MassNonNegative(ps[1..], r);
    TermSign(ps[0].lse, r);
    if ps[0].lse.MinusInf? { TopWeighs(ps[1..], r); }
  }

  /** The cross-shard recombination, all weights relative to the largest lse m:
      out = Σ outₛ·exp(lseₛ - m) / Σ exp(lseₛ - m), lse = m + ln Σ exp(lseₛ - m).
      None is NaN: no shard saw a candidate. */
  function RecombineAll(ps: seq<Partial>): Option<Partial> {
    match TopLse(ps)
    case MinusInf => None
    case Log(m) =>
      var r := 1.0 / m;
      QuotientPositive(1.0, m);
      TopWeighs(ps, r);
      ProductPositive(m, MassSum(ps, r));
      Some(Partial(OutSum(ps, r) / MassSum(ps, r), Log(m * MassSum(ps, r))))
  }

  lemma {:induction false} TopMass(ps: seq<Partial>, i: nat)
    requires i < |ps|
    ensures MassOf(ps[i].lse) <= MassOf(TopLse(ps))
  {
    hide MassOf, MaxLse, ExpLse;
    LargestReference(ps[0].lse, TopLse(ps[1..]));
    if i > 0 { TopMass(ps[1..], i - 1); }
  }

  /** No weight relative to the largest lse exceeds 1. */
  lemma {:induction false} TopIsLargest(ps: seq<Partial>, i: nat)
    requires i < |ps| && TopLse(ps).Log?
    ensures ExpLse(ps[i].lse, TopLse(ps).mass) <= 1.0
  {
    hide TopLse;
    var m := TopLse(ps).mass;
    TopMass(ps, i);
    QuotientPositive(1.0, m);
    WeightAtMostOne(MassOf(ps[i].lse), m, 1.0 / m);
  }

  function Join(shards: seq<seq<Lane>>): seq<Lane> {
    if shards == [] then [] else shards[0] + Join(shards[1..])
  }

  lemma ScaleTerm(x: real, y: real, r: real, y': real, sum: real, sum': real)
    requires y' == y * r && sum == x * 1.0 + y && sum' == x * r + y'
    ensures sum' == sum * r
  {}

  lemma {:induction false} ScaleMasses(ps: seq<Partial>, r: real)
    ensures MassSum(ps, r) == MassSum(ps, 1.0) * r
  {
    if ps != [] {
      ScaleMasses(ps[1..], r);
      ScaleTerm(MassOf(ps[0].lse), MassSum(ps[1..], 1.0), r, MassSum(ps[1..], r), MassSum(ps, 1.0), MassSum(ps, r));
    }
  }

  lemma Regroup(out: real, mass: real, r: real)
    ensures out * (mass * r) == (out * mass) * r
    ensures out * (mass * 1.0) == (out * mass) * 1.0
  {}

  lemma {:induction false} ScaleOuts(ps: seq<Partial>, r: real)
    ensures OutSum(ps, r) == OutSum(ps, 1.0) * r
  {
    if ps != [] {
      ScaleOuts(ps[1..], r);
      Regroup(ps[0].out, MassOf(ps[0].lse), r);
      ScaleTerm(ps[0].out * MassOf(ps[0].lse), OutSum(ps[1..], 1.0), r, OutSum(ps[1..], r), OutSum(ps, 1.0), OutSum(ps, r));
    }
  }

  /** Prepending a shard adds what its partial carries. */
  lemma FirstShard(w: Weight, shard: seq<Lane>, rest: seq<Lane>, p: Partial)
    requires p == PartialOf(w, shard)
    ensures Den(w, shard + rest, 0) == MassOf(p.lse) + Den(w, rest, 0)
    ensures Num(w, shard + rest, 0) == p.out * MassOf(p.lse) + Num(w, rest, 0)
    ensures AllMasked(shard + rest) <==> p.lse.MinusInf? && AllMasked(rest)
  {
    hide Sum;
    Concat(w, shard, rest, 0);
    PartialCarries(w, shard, p);
    PartialMeaning(w, shard);
    MaskedIsEmpty(w, shard, 0);
    MaskedIsEmpty(w, rest, 0);
    MaskedIsEmpty(w, shard + rest, 0);
  }

  lemma {:induction false} ShardSums(w: Weight, shards: seq<seq<Lane>>, ps: seq<Partial>)
    requires |ps| == |shards| && forall r :: 0 <= r < |ps| ==> ps[r] == PartialOf(w, shards[r])
    ensures MassSum(ps, 1.0) == Den(w, Join(shards), 0)
    ensures OutSum(ps, 1.0) == Num(w, Join(shards), 0)
    ensures TopLse(ps).MinusInf? <==> AllMasked(Join(shards))
  {
    if shards != [] {
      hide Sum, PartialOf, MassSum, OutSum, TopLse, Den, Num;
      ShardSums(w, shards[1..], ps[1..]);
      FirstShard(w, shards[0], Join(shards[1..]), ps[0]);
    } else {
    }
  }

  /** Weights relative to m give the same quotient, and m gives the denominator back. */
  lemma UndoRelative(num: real, den: real, m: Mass, num': real, den': real)
    requires den > 0.0 && num' == num * (1.0 / m) && den' == den * (1.0 / m)
    ensures den' > 0.0 && num' / den' == num / den && m * den' == den
  {
    QuotientPositive(1.0, m);
    CancelFactor(num, den, 1.0 / m);
    MassRestored(m, den, 0.0);
    assert den * (1.0 / m) + 0.0 * (1.0 / m) == den';
  }

  /** Recombining every shard, empty ones included, gives the output and the lse of all their
      candidates; it is NaN exactly when no shard holds one. */
  lemma {:induction false} RecombineAllExact(w: Weight, shards: seq<seq<Lane>>, ps: seq<Partial>)
    requires |ps| == |shards| && forall r :: 0 <= r < |ps| ==> ps[r] == PartialOf(w, shards[r])
    ensures RecombineAll(ps).None? <==> AllMasked(Join(shards))
    ensures RecombineAll(ps).Some? ==> RecombineAll(ps).value == PartialOf(w, Join(shards))
  {
    hide Sum, MassSum, OutSum, Den, Num, TopLse, AllMasked, Attention;
    ShardSums(w, shards, ps);
    Unshift(w, Join(shards));
    PartialMeaning(w, Join(shards));
    if !AllMasked(Join(shards)) { AttentionIs(w, Join(shards)); }
    var top := TopLse(ps);
    if top.Log? {
      var r := 1.0 / top.mass;
      QuotientPositive(1.0, top.mass);
      ScaleMasses(ps, r);
      ScaleOuts(ps, r);
      UndoRelative(OutSum(ps, 1.0), MassSum(ps, 1.0), top.mass, OutSum(ps, r), MassSum(ps, r));
    }
  }

  lemma AttentionIs(w: Weight, lanes: seq<Lane>)
    requires Den(w, lanes, 0) > 0.0
    ensures Attention(w, lanes) == Num(w, lanes, 0) / Den(w, lanes, 0)
  {
    assert Den(w, lanes, 0) + SinkWeight(w, Lowest) == Den(w, lanes, 0);
  }
}
