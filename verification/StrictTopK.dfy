/** The strict order (score descending, position ascending), selection by it, and the two
    successive stable argsorts that realise it. */
module StrictTopK {
  import opened Wrappers

  /** An indexer logit; NegInf marks an invalid lane. */
  datatype Logit = NegInf | Fin(x: real)

  /** A valid candidate. */
  datatype Cand = Cand(score: real, pos: int)

  predicate Before(a: Cand, b: Cand) {
    a.score > b.score || (a.score == b.score && a.pos < b.pos)
  }

  ghost predicate Ranked(c: seq<Cand>) {
    forall i, j :: 0 <= i < j < |c| ==> Before(c[i], c[j])
  }

  /** c lists, in strict order, k best members of s: all of them when there are fewer. */
  ghost predicate IsTopK(c: seq<Cand>, s: set<Cand>, k: nat) {
    && |c| <= k
    && Ranked(c)
    && (forall x :: x in c ==> x in s)
    && (|c| < k ==> forall x :: x in s ==> x in c)
    && (forall x, t :: x in s && x !in c && t in c ==> Before(t, x))
  }

  /** The k best members of s in strict order. */
  ghost function TopK(s: set<Cand>, k: nat): (c: seq<Cand>)
    ensures IsTopK(c, s, k)
    decreases k
  {
    if k == 0 || s == {} then [] else
      FirstExists(s);
      var m :| IsFirst(m, s);
      var rest := TopK(s - {m}, k - 1);
      assert forall x :: x in s && x !in [m] + rest ==> x in s - {m} && x !in rest;
      [m] + rest
  }

  ghost predicate IsFirst(m: Cand, s: set<Cand>) {
    m in s && forall x :: x in s && x != m ==> Before(m, x)
  }

  lemma {:induction false} FirstExists(s: set<Cand>)
    requires s != {}
    ensures exists m :: IsFirst(m, s)
    decreases |s|
  {
    var x :| x in s;
    if s == {x} {
      assert IsFirst(x, s);
    } else {
      var rest := s - {x};
      assert s == {x} + rest;
      FirstExists(rest);
      var m :| IsFirst(m, rest);
      if Before(x, m) {
        forall y | y in s && y != x
          ensures Before(x, y)
        {
          assert y in rest;
        }
        assert IsFirst(x, s);
      } else {
        assert IsFirst(m, s);
      }
    }
  }

  lemma {:induction false} PrefixesAgree(c: seq<Cand>, d: seq<Cand>, s: set<Cand>, k: nat, n: nat)
    requires IsTopK(c, s, k) && IsTopK(d, s, k) && n <= |c| && n <= |d|
    ensures c[..n] == d[..n]
  {
    if n > 0 {
      var i := n - 1;
      PrefixesAgree(c, d, s, k, i);
      assert c[..i] == d[..i];
      NotEarlier(c, d, s, k, i);
      NotEarlier(d, c, s, k, i);
      assert c[..n] == c[..i] + [c[i]] && d[..n] == d[..i] + [d[i]];
    }
  }

  lemma NotEarlier(c: seq<Cand>, d: seq<Cand>, s: set<Cand>, k: nat, i: nat)
    requires IsTopK(c, s, k) && IsTopK(d, s, k) && i < |c| && i < |d|
    requires c[..i] == d[..i]
    ensures !Before(c[i], d[i])
  {
    assert forall j :: 0 <= j < i ==> c[..i][j] == c[j] && d[..i][j] == d[j];
    assert c[i] in s && d[i] in d;
    if c[i] in d {
      var j :| 0 <= j < |d| && d[j] == c[i];
      assert j < i ==> Before(c[j], c[i]);
      assert j >= i ==> j == i || Before(d[i], d[j]);
    }
  }

  /** The selection is unique. */
  lemma TopKUnique(c: seq<Cand>, d: seq<Cand>, s: set<Cand>, k: nat)
    requires IsTopK(c, s, k) && IsTopK(d, s, k)
    ensures c == d
  {
    NoLonger(c, d, s, k);
    NoLonger(d, c, s, k);
    PrefixesAgree(c, d, s, k, |c|);
    assert c[..|c|] == c && d[..|d|] == d;
  }

  lemma {:induction false} RankedDistinct(c: seq<Cand>)
    requires Ranked(c)
    ensures |Image(c)| == |c|
  {}

  /** A shorter selection would hold everything, so also all of the longer one. */
  lemma NoLonger(c: seq<Cand>, d: seq<Cand>, s: set<Cand>, k: nat)
    requires IsTopK(c, s, k) && IsTopK(d, s, k)
    ensures |d| <= |c|
  {
    RankedDistinct(c);
    RankedDistinct(d);
    if |c| < |d| {
      SubsetSize(Image(d), Image(c));
    }
  }

  // ---- stable argsort ----

  ghost predicate IsPermutation(order: seq<nat>, n: nat) {
    && |order| == n
    && (forall i :: 0 <= i < n ==> order[i] < n)
    && (forall i, j :: 0 <= i < j < n ==> order[i] != order[j])
  }

  /** Strict weak order: what a comparison sort may assume of its keys. */
  ghost predicate WeakOrder<T(!new)>(before: (T, T) -> bool) {
    && (forall x, y :: before(x, y) ==> !before(y, x))
    && (forall x, y, z :: before(x, y) ==> before(x, z) || before(z, y))
  }

  /** index i sorts before index j: smaller key, or equal keys and i < j. */
  ghost predicate StableBefore<T>(keys: seq<T>, before: (T, T) -> bool, i: nat, j: nat)
    requires i < |keys| && j < |keys|
  {
    before(keys[i], keys[j]) || (!before(keys[j], keys[i]) && i < j)
  }

  ghost predicate StablySorted<T>(keys: seq<T>, before: (T, T) -> bool, order: seq<nat>)
    requires forall i :: 0 <= i < |order| ==> order[i] < |keys|
  {
    forall i, j :: 0 <= i < j < |order| ==> StableBefore(keys, before, order[i], order[j])
  }

  /** A stable argsort: the one permutation that is stably sorted. */
  method ArgsortStable<T(!new)>(keys: seq<T>, before: (T, T) -> bool) returns (order: seq<nat>)
    requires WeakOrder(before)
    ensures IsPermutation(order, |keys|)
    ensures StablySorted(keys, before, order)
  {
    order := [];
    for n := 0 to |keys|
      invariant IsPermutation(order, n)
      invariant StablySorted(keys, before, order)
    {
      var at := n;
      while at > 0 && before(keys[n], keys[order[at - 1]])
        invariant 0 <= at <= n
        invariant forall i :: at <= i < n ==> before(keys[n], keys[order[i]])
      {
        at := at - 1;
      }
      InsertIndex(keys, before, order, n, at);
      order := order[..at] + [n] + order[at..];
    }
  }

  lemma InsertKeepsPermutation(order: seq<nat>, n: nat, at: nat)
    requires IsPermutation(order, n) && at <= n
    ensures IsPermutation(order[..at] + [n] + order[at..], n + 1)
  {}

  lemma InsertIndex<T(!new)>(keys: seq<T>, before: (T, T) -> bool, order: seq<nat>, n: nat, at: nat)
    requires WeakOrder(before) && n < |keys| && at <= n
    requires IsPermutation(order, n) && StablySorted(keys, before, order)
    requires forall i :: at <= i < n ==> before(keys[n], keys[order[i]])
    requires at > 0 ==> !before(keys[n], keys[order[at - 1]])
    ensures IsPermutation(order[..at] + [n] + order[at..], n + 1)
    ensures StablySorted(keys, before, order[..at] + [n] + order[at..])
  {
    var more := order[..at] + [n] + order[at..];
    forall i | 0 <= i < at
      ensures StableBefore(keys, before, order[i], n)
    {
      if i < at - 1 {
        assert StableBefore(keys, before, order[i], order[at - 1]);
      }
    }
    InsertKeepsPermutation(order, n, at);
    forall i, j | 0 <= i < j < |more|
      ensures StableBefore(keys, before, more[i], more[j])
    {
      if i != at && j != at {
        assert StableBefore(keys, before, order[if i < at then i else i - 1], order[if j < at then j else j - 1]);
      }
    }
  }

  // ---- _strict_topk ----

  const BIG := 0x4000_0000_0000_0000

  predicate Less(a: int, b: int) { a < b }

  predicate Higher(a: Logit, b: Logit) {
    a.Fin? && (b.NegInf? || a.x > b.x)
  }

  /** Positions that are valid sort by themselves, invalid ones last. */
  function PosKey(pos: seq<int>): (keys: seq<int>)
    ensures |keys| == |pos|
    ensures forall i :: 0 <= i < |pos| ==> keys[i] == if pos[i] >= 0 then pos[i] else BIG
  {
    seq(|pos|, i requires 0 <= i < |pos| => if pos[i] >= 0 then pos[i] else BIG)
  }

  function Gather<T>(values: seq<T>, index: seq<nat>): (r: seq<T>)
    requires forall i :: 0 <= i < |index| ==> index[i] < |values|
    ensures |r| == |index|
    ensures forall i :: 0 <= i < |index| ==> r[i] == values[index[i]]
  {
    seq(|index|, i requires 0 <= i < |index| => values[index[i]])
  }

  /** The candidates held by the valid lanes of a row. */
  ghost function Valid(scores: seq<Logit>, pos: seq<int>): set<Cand>
    requires |scores| == |pos|
  {
    set i | 0 <= i < |scores| && scores[i].Fin? :: Cand(scores[i].x, pos[i])
  }

  /** Valid lanes carry distinct non-negative positions; what an invalid lane carries is free. */
  ghost predicate LanePairs(scores: seq<Logit>, pos: seq<int>) {
    && |scores| == |pos|
    && (forall i :: 0 <= i < |scores| && scores[i].Fin? ==> pos[i] >= 0)
    && (forall i, j :: 0 <= i < j < |scores| && scores[i].Fin? && scores[j].Fin? ==> pos[i] != pos[j])
  }

  /** A row of n positions: the selection, padded with -1. */
  function PosRow(c: seq<Cand>, n: nat): (r: seq<int>)
    ensures |r| == n
    ensures forall i :: 0 <= i < n ==> r[i] == if i < |c| then c[i].pos else -1
  {
    seq(n, i requires 0 <= i < n => if i < |c| then c[i].pos else -1)
  }

  function ScoreRow(c: seq<Cand>, n: nat): (r: seq<Logit>)
    ensures |r| == n
    ensures forall i :: 0 <= i < n ==> r[i] == if i < |c| then Fin(c[i].score) else NegInf
  {
    seq(n, i requires 0 <= i < n => if i < |c| then Fin(c[i].score) else NegInf)
  }

  /** The composed order compares (score descending, position ascending). */
  lemma TwoSorts(scores: seq<Logit>, pos: seq<int>, o1: seq<nat>, o2: seq<nat>, i: nat, j: nat)
    requires LanePairs(scores, pos)
    requires IsPermutation(o1, |scores|) && IsPermutation(o2, |scores|)
    requires StablySorted(PosKey(pos), Less, o1) && StablySorted(Gather(scores, o1), Higher, o2)
    requires i < j < |scores|
    ensures var x, y := o1[o2[i]], o1[o2[j]];
            && x != y
            && (scores[y].Fin? ==> scores[x].Fin? && Before(Cand(scores[x].x, pos[x]), Cand(scores[y].x, pos[y])))
  {
    assert StableBefore(Gather(scores, o1), Higher, o2[i], o2[j]);
    if o2[i] < o2[j] {
      assert StableBefore(PosKey(pos), Less, o1[o2[i]], o1[o2[j]]);
    }
  }

  function Range(n: nat): (r: set<nat>)
    ensures forall i: nat :: i in r <==> i < n
    ensures |r| == n
  {
    if n == 0 then {} else Range(n - 1) + {n - 1}
  }

  function Image<T(==,!new)>(order: seq<T>): (r: set<T>)
    ensures forall x :: x in r <==> x in order
    ensures (forall i, j :: 0 <= i < j < |order| ==> order[i] != order[j]) ==> |r| == |order|
  {
    if order == [] then {}
    else
      var m := |order| - 1;
      assert forall x :: x in order <==> x in order[..m] || x == order[m];
      Image(order[..m]) + {order[m]}
  }

  /** A permutation misses no index. */
  lemma PermutationCovers(order: seq<nat>, n: nat, x: nat)
    requires IsPermutation(order, n) && x < n
    ensures x in order
  {
    if x !in order {
      SubsetSize(Image(order), Range(n) - {x});
    }
  }

  lemma {:induction false} SubsetSize<T>(a: set<T>, b: set<T>)
    requires a <= b
    ensures |a| <= |b|
    decreases a
  {
    if a != {} {
      var x :| x in a;
      SubsetSize(a - {x}, b - {x});
    }
  }

  /** Selection by two stable argsorts: the k best valid lanes in strict order, then -inf and -1. */
  method StrictTopKRow(scores: seq<Logit>, pos: seq<int>, k: nat) returns (vsel: seq<Logit>, gsel: seq<int>)
    requires LanePairs(scores, pos)
    ensures vsel == ScoreRow(TopK(Valid(scores, pos), k), Min(k, |scores|))
    ensures gsel == PosRow(TopK(Valid(scores, pos), k), Min(k, |scores|))
  {
    var o1 := ArgsortStable(PosKey(pos), Less);
    var sc1 := Gather(scores, o1);
    var o2 := ArgsortStable(sc1, Higher);
    var order := Gather(o1, o2);
    var kk := Min(k, |scores|);
    var sel := order[..kk];
    vsel := Gather(scores, sel);
    var graw := Gather(pos, sel);
    gsel := seq(kk, i requires 0 <= i < kk => if vsel[i].NegInf? then -1 else graw[i]);
    ComposedOrder(scores, pos, o1, o2, order);
    SelectedRows(scores, pos, k, order);
  }

  /** How many of the first n lanes, in sorted order, are valid: they come first. */
  function ValidPrefix(scores: seq<Logit>, order: seq<nat>, n: nat): (m: nat)
    requires n <= |order| && forall i :: 0 <= i < |order| ==> order[i] < |scores|
    ensures m <= n
    ensures forall i :: 0 <= i < m ==> scores[order[i]].Fin?
    ensures m < n ==> scores[order[m]].NegInf?
  {
    if n == 0 then 0
    else
      var m := ValidPrefix(scores, order, n - 1);
      if m == n - 1 && scores[order[m]].Fin? then n else m
  }

  /** The valid lanes of the prefix, as candidates. */
  function PrefixCands(scores: seq<Logit>, pos: seq<int>, order: seq<nat>, m: nat): (c: seq<Cand>)
    requires |scores| == |pos| && m <= |order| && forall i :: 0 <= i < |order| ==> order[i] < |scores|
    requires forall i :: 0 <= i < m ==> scores[order[i]].Fin?
    ensures |c| == m
    ensures forall i :: 0 <= i < m ==> c[i] == Cand(scores[order[i]].x, pos[order[i]])
  {
    seq(m, i requires 0 <= i < m => Cand(scores[order[i]].x, pos[order[i]]))
  }

  /** order visits the valid lanes first, in strict order. */
  ghost predicate StrictlyOrdered(scores: seq<Logit>, pos: seq<int>, order: seq<nat>) {
    && |scores| == |pos|
    && IsPermutation(order, |scores|)
    && (forall i, j :: 0 <= i < j < |order| && scores[order[j]].Fin? ==>
          && scores[order[i]].Fin?
          && Before(Cand(scores[order[i]].x, pos[order[i]]), Cand(scores[order[j]].x, pos[order[j]])))
  }

  lemma ComposedOrder(scores: seq<Logit>, pos: seq<int>, o1: seq<nat>, o2: seq<nat>, order: seq<nat>)
    requires LanePairs(scores, pos)
    requires IsPermutation(o1, |scores|) && IsPermutation(o2, |scores|)
    requires StablySorted(PosKey(pos), Less, o1) && StablySorted(Gather(scores, o1), Higher, o2)
    requires order == Gather(o1, o2)
    ensures StrictlyOrdered(scores, pos, order)
  {
    forall i, j | 0 <= i < j < |scores|
      ensures order[i] != order[j]
      ensures scores[order[j]].Fin? ==>
                scores[order[i]].Fin? &&
                Before(Cand(scores[order[i]].x, pos[order[i]]), Cand(scores[order[j]].x, pos[order[j]]))
    {
      TwoSorts(scores, pos, o1, o2, i, j);
    }
  }

  /** A candidate not among the first m of the order is beaten by all of them, and m is k. */
  lemma {:induction false} BehindTheCut(scores: seq<Logit>, pos: seq<int>, k: nat, order: seq<nat>, m: nat,
                                        c: seq<Cand>, x: Cand)
    requires LanePairs(scores, pos) && StrictlyOrdered(scores, pos, order)
    requires m == ValidPrefix(scores, order, Min(k, |scores|)) && c == PrefixCands(scores, pos, order, m)
    requires x in Valid(scores, pos) && x !in c
    ensures m == k && forall i :: 0 <= i < m ==> Before(c[i], x)
  {
    assert forall i :: 0 <= i < m ==> c[i] in c;
    var l :| 0 <= l < |scores| && scores[l].Fin? && x == Cand(scores[l].x, pos[l]);
    PermutationCovers(order, |scores|, l);
    var j :| 0 <= j < |order| && order[j] == l;
  }

  /** Cutting such an order at k selects the k best. */
  lemma {:induction false} CutIsTopK(scores: seq<Logit>, pos: seq<int>, k: nat, order: seq<nat>)
    requires LanePairs(scores, pos) && StrictlyOrdered(scores, pos, order)
    ensures var m := ValidPrefix(scores, order, Min(k, |scores|));
            PrefixCands(scores, pos, order, m) == TopK(Valid(scores, pos), k)
  {
    hide TopK;
    var s := Valid(scores, pos);
    var m := ValidPrefix(scores, order, Min(k, |scores|));
    var c := PrefixCands(scores, pos, order, m);
    forall x | x in s && x !in c
      ensures m == k && forall t :: t in c ==> Before(t, x)
    {
      BehindTheCut(scores, pos, k, order, m, c, x);
    }
    assert forall i :: 0 <= i < m ==> scores[order[i]].Fin? && c[i] == Cand(scores[order[i]].x, pos[order[i]]);
    TopKUnique(c, TopK(s, k), s, k);
  }

  /** After an invalid lane no valid one follows. */
  lemma {:induction false} FirstInvalid(scores: seq<Logit>, order: seq<nat>, kk: nat, i: nat)
    requires kk <= |order| && forall i :: 0 <= i < |order| ==> order[i] < |scores|
    requires forall i, j :: 0 <= i < j < |order| && scores[order[j]].Fin? ==> scores[order[i]].Fin?
    requires ValidPrefix(scores, order, kk) <= i < kk
    ensures scores[order[i]].NegInf?
  {}

  lemma {:induction false} SelectedRows(scores: seq<Logit>, pos: seq<int>, k: nat, order: seq<nat>)
    requires LanePairs(scores, pos) && StrictlyOrdered(scores, pos, order)
    ensures var kk := Min(k, |scores|);
            var top := TopK(Valid(scores, pos), k);
            && |top| <= kk
            && (forall i :: 0 <= i < kk ==>
                  if i < |top| then scores[order[i]] == Fin(top[i].score) && pos[order[i]] == top[i].pos
                  else scores[order[i]].NegInf?)
  {
    var kk := Min(k, |scores|);
    var m := ValidPrefix(scores, order, kk);
    CutIsTopK(scores, pos, k, order);
    forall i | m <= i < kk
      ensures scores[order[i]].NegInf?
    {
      FirstInvalid(scores, order, kk, i);
    }
  }
}
