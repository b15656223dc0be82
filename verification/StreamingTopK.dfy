/** Top-K over chunks of a row of logits with buffers reused between chunks, under any tie-break
    of the underlying top-k. */
module StreamingTopK {
  import opened Wrappers
  import opened StrictTopK

  predicate AtMost(a: Logit, b: Logit) {
    a.NegInf? || (b.Fin? && a.x <= b.x)
  }

  /** All that is assumed of torch.topk: k distinct indices, none of the others holding a larger
      value. Order and the choice among equal values are left open. */
  ghost predicate IsTopIndices(values: seq<Logit>, k: nat, index: seq<nat>) {
    && |index| == k
    && (forall i :: 0 <= i < k ==> index[i] < |values|)
    && (forall i, j :: 0 <= i < j < k ==> index[i] != index[j])
    && (forall j, i :: 0 <= j < |values| && j !in index && 0 <= i < k ==> AtMost(values[j], values[index[i]]))
  }

  lemma SomeUnselected(index: seq<nat>, n: nat)
    requires |index| < n
    requires forall i, j :: 0 <= i < j < |index| ==> index[i] != index[j]
    ensures exists j: nat :: j < n && j !in index
  {
    if forall j: nat :: j < n ==> j in index {
      SubsetSize(Range(n), Image(index));
    }
  }

  method ChooseTop(values: seq<Logit>, k: nat) returns (index: seq<nat>)
    requires k <= |values|
    ensures IsTopIndices(values, k, index)
  {
    index := [];
    for n := 0 to k
      invariant IsTopIndices(values, n, index)
    {
      SomeUnselected(index, |values|);
      var best := 0;
      while best in index
        invariant best < |values|
        invariant forall j :: 0 <= j < best ==> j in index
        decreases |values| - best
      {
        best := best + 1;
      }
      for j := best to |values|
        invariant best < |values| && best !in index
        invariant forall i :: 0 <= i < j && i !in index ==> AtMost(values[i], values[best])
      {
        if j !in index && !AtMost(values[j], values[best]) {
          best := j;
        }
      }
      index := index + [best];
    }
  }

  /** A top-k into two buffers: writes their first k columns only. */
  method TopKInto(values: seq<Logit>, k: nat, outValues: array<Logit>, outIndices: array<nat>)
    requires k <= |values| && k <= outValues.Length && k <= outIndices.Length
    modifies outValues, outIndices
    ensures IsTopIndices(values, k, outIndices[..k])
    ensures forall i :: 0 <= i < k ==> outValues[i] == values[outIndices[i]]
  {
    var index := ChooseTop(values, k);
    forall i | 0 <= i < k {
      outValues[i] := values[index[i]];
    }
    forall i | 0 <= i < k {
      outIndices[i] := index[i];
    }
    assert outIndices[..k] == index;
  }

  /** What the loop keeps about the logits seen so far: slots are -1 exactly where their value is
      -inf, every other slot holds its own logit's value, no index twice, and nothing left out
      beats anything kept. */
  ghost predicate Kept(best: seq<Logit>, out: seq<int>, seen: seq<Logit>, K: nat) {
    && |best| == |out| == K
    && (forall i :: 0 <= i < K ==> (out[i] == -1 <==> best[i].NegInf?))
    && (forall i :: 0 <= i < K && best[i].Fin? ==> 0 <= out[i] < |seen| && seen[out[i]] == best[i])
    && (forall i, j :: 0 <= i < j < K && best[i].Fin? && best[j].Fin? ==> out[i] != out[j])
    && (forall p, i :: 0 <= p < |seen| && p !in out && 0 <= i < K ==> AtMost(seen[p], best[i]))
  }

  /** The two halves of the candidate row: what was kept, then the chunk's own top. */
  ghost predicate Candidates(candV: seq<Logit>, candI: seq<int>, best: seq<Logit>, out: seq<int>,
                             seen: seq<Logit>, chunk: seq<Logit>, K: nat, top: seq<nat>) {
    && |best| == |out| == K && |candV| == |candI| == K + |top|
    && (forall i :: 0 <= i < |top| ==> top[i] < |chunk|)
    && (forall i :: 0 <= i < K ==> candV[i] == best[i] && candI[i] == out[i])
    && (forall i :: 0 <= i < |top| ==> candV[K + i] == chunk[top[i]] && candI[K + i] == |seen| + top[i])
  }

  function Group(lo: nat, n: nat): (r: set<nat>)
    ensures forall g: nat :: g in r <==> lo <= g < lo + n
    ensures |r| == n
  {
    if n == 0 then {} else Group(lo, n - 1) + {lo + n - 1}
  }

  /** K selected indices, one of them outside a group of K, leave a member of the group out. */
  lemma GroupMember(selected: seq<nat>, lo: nat, K: nat, outside: nat)
    requires |selected| == K && outside in selected && !(lo <= outside < lo + K)
    requires forall i, j :: 0 <= i < j < K ==> selected[i] != selected[j]
    ensures exists g :: lo <= g < lo + K && g !in selected
  {
    if forall g :: lo <= g < lo + K ==> g in selected {
      SubsetSize(Group(lo, K), Image(selected) - {outside});
    }
  }

  lemma AtMostTransitive(a: Logit, b: Logit, c: Logit)
    requires AtMost(a, b) && AtMost(b, c)
    ensures AtMost(a, c)
  {}

  /** A logit no larger than K candidates of one group is no larger than anything selected, unless
      that is a member of the group itself. */
  lemma BeatenByGroup(candV: seq<Logit>, selected: seq<nat>, lo: nat, K: nat, v: Logit, s: nat)
    requires IsTopIndices(candV, K, selected) && lo + K <= |candV| && s in selected
    requires forall g :: lo <= g < lo + K ==> AtMost(v, candV[g])
    ensures AtMost(v, candV[s])
  {
    if !(lo <= s < lo + K) {
      GroupMember(selected, lo, K, s);
      var g :| lo <= g < lo + K && g !in selected;
      var i :| 0 <= i < K && selected[i] == s;
      AtMostTransitive(v, candV[g], candV[selected[i]]);
    }
  }

  /** The kept row after a chunk. */
  ghost predicate Selected(nb: seq<Logit>, no: seq<int>, candV: seq<Logit>, candI: seq<int>, selected: seq<nat>, K: nat) {
    && |candV| == |candI| && IsTopIndices(candV, K, selected)
    && |nb| == |no| == K
    && forall i :: 0 <= i < K ==>
         && nb[i] == candV[selected[i]]
         && no[i] == if nb[i].Fin? then candI[selected[i]] else -1
  }

  /** A candidate whose index is not kept was not selected. */
  lemma DroppedCandidate(nb: seq<Logit>, no: seq<int>, candV: seq<Logit>, candI: seq<int>, selected: seq<nat>, K: nat,
                         c: nat, i: nat)
    requires Selected(nb, no, candV, candI, selected, K)
    requires c < |candV| && candV[c].Fin? && candI[c] !in no && i < K
    ensures AtMost(candV[c], nb[i])
  {}

  /** Nothing left out after the chunk beats anything kept. */
  lemma LeftOutIsBeaten(best: seq<Logit>, out: seq<int>, seen: seq<Logit>, chunk: seq<Logit>, K: nat, top: seq<nat>,
                        candV: seq<Logit>, candI: seq<int>, selected: seq<nat>, nb: seq<Logit>, no: seq<int>, p: nat, i: nat)
    requires Kept(best, out, seen, K) && IsTopIndices(chunk, Min(K, |chunk|), top)
    requires Candidates(candV, candI, best, out, seen, chunk, K, top)
    requires Selected(nb, no, candV, candI, selected, K)
    requires p < |seen + chunk| && p !in no && i < K && (seen + chunk)[p].Fin?
    ensures AtMost((seen + chunk)[p], nb[i])
  {
    var v := (seen + chunk)[p];
    if p < |seen| {
      if p in out {
        var c :| 0 <= c < K && out[c] == p;
        DroppedCandidate(nb, no, candV, candI, selected, K, c, i);
      } else {
        BeatenByGroup(candV, selected, 0, K, v, selected[i]);
      }
    } else {
      var q := p - |seen|;
      if q in top {
        var c :| 0 <= c < |top| && top[c] == q;
        DroppedCandidate(nb, no, candV, candI, selected, K, K + c, i);
      } else {
        if |top| < K { PermutationCovers(top, |chunk|, q); }
        forall g | K <= g < K + K
          ensures AtMost(v, candV[g])
        {
          assert candV[K + (g - K)] == chunk[top[g - K]];
        }
        BeatenByGroup(candV, selected, K, K, v, selected[i]);
      }
    }
  }

  /** One chunk keeps the invariant. */
  lemma ChunkKeeps(best: seq<Logit>, out: seq<int>, seen: seq<Logit>, chunk: seq<Logit>, K: nat, top: seq<nat>,
                   candV: seq<Logit>, candI: seq<int>, selected: seq<nat>, nb: seq<Logit>, no: seq<int>)
    requires Kept(best, out, seen, K) && IsTopIndices(chunk, Min(K, |chunk|), top)
    requires Candidates(candV, candI, best, out, seen, chunk, K, top)
    requires Selected(nb, no, candV, candI, selected, K)
    ensures Kept(nb, no, seen + chunk, K)
  {
    forall c | 0 <= c < |candV| && candV[c].Fin?
      ensures 0 <= candI[c] < |seen + chunk| && (seen + chunk)[candI[c]] == candV[c]
    {
      CandidateEntry(best, out, seen, chunk, K, top, candV, candI, c);
    }
    forall i, j | 0 <= i < j < K && nb[i].Fin? && nb[j].Fin?
      ensures no[i] != no[j]
    {
      CandidatesDistinct(best, out, seen, chunk, K, top, candV, candI, selected[i], selected[j]);
    }
    forall p, i | 0 <= p < |seen + chunk| && p !in no && 0 <= i < K
      ensures AtMost((seen + chunk)[p], nb[i])
    {
      if (seen + chunk)[p].Fin? {
        LeftOutIsBeaten(best, out, seen, chunk, K, top, candV, candI, selected, nb, no, p, i);
      }
    }
  }

  lemma CandidateEntry(best: seq<Logit>, out: seq<int>, seen: seq<Logit>, chunk: seq<Logit>, K: nat, top: seq<nat>,
                       candV: seq<Logit>, candI: seq<int>, c: nat)
    requires Kept(best, out, seen, K) && Candidates(candV, candI, best, out, seen, chunk, K, top)
    requires c < |candV| && candV[c].Fin?
    ensures 0 <= candI[c] < |seen + chunk| && (seen + chunk)[candI[c]] == candV[c]
    ensures candI[c] < |seen| <==> c < K
  {
    if c >= K {
      var t := c - K;
      assert candV[K + t] == chunk[top[t]];
    }
  }

  lemma CandidatesDistinct(best: seq<Logit>, out: seq<int>, seen: seq<Logit>, chunk: seq<Logit>, K: nat, top: seq<nat>,
                           candV: seq<Logit>, candI: seq<int>, c: nat, d: nat)
    requires Kept(best, out, seen, K) && Candidates(candV, candI, best, out, seen, chunk, K, top)
    requires forall i, j :: 0 <= i < j < |top| ==> top[i] != top[j]
    requires c < |candV| && d < |candV| && c != d && candV[c].Fin? && candV[d].Fin?
    ensures candI[c] != candI[d]
  {
    CandidateEntry(best, out, seen, chunk, K, top, candV, candI, c);
    CandidateEntry(best, out, seen, chunk, K, top, candV, candI, d);
    if c >= K && d >= K {
      assert candI[K + (c - K)] == |seen| + top[c - K] && candI[K + (d - K)] == |seen| + top[d - K];
    }
  }

  /** Copies src into the columns from `at` on. */
  method CopyInto<T>(src: seq<T>, dst: array<T>, at: nat)
    requires at + |src| <= dst.Length
    modifies dst
    ensures dst[..at] == old(dst[..at]) && dst[at..at + |src|] == src
  {
    forall i | 0 <= i < |src| {
      dst[at + i] := src[i];
    }
  }

  /** Two copies side by side; returns the view that holds them. */
  method Concatenate<T>(a: seq<T>, b: seq<T>, buffer: array<T>) returns (view: seq<T>)
    requires |a| + |b| <= buffer.Length
    modifies buffer
    ensures view == a + b
  {
    CopyInto(a, buffer, 0);
    CopyInto(b, buffer, |a|);
    view := buffer[..|a| + |b|];
    assert view == buffer[..|a|] + buffer[|a|..|a| + |b|];
    assert buffer[..|a|] == buffer[0..|a|];
  }

  function Shifted(index: seq<nat>, base: nat): (r: seq<int>)
    ensures |r| == |index| && forall i :: 0 <= i < |index| ==> r[i] == base + index[i]
  {
    seq(|index|, i requires 0 <= i < |index| => base + index[i])
  }

  /** The work of one chunk: top of the chunk, candidate row, selection, gathered indices. Columns
      of the buffers past the views hold leftovers of earlier chunks and are never read. */
  method ChunkStep(chunk: seq<Logit>, kStart: nat, K: nat, best: seq<Logit>, out: array<int>,
                   chunkValues: array<Logit>, chunkIndices: array<nat>,
                   candidateValues: array<Logit>, candidateIndices: array<int>,
                   nextBest: array<Logit>, selected: array<nat>, ghost seen: seq<Logit>)
    requires out.Length == K == nextBest.Length == selected.Length
    requires chunkValues.Length == chunkIndices.Length >= Min(K, |chunk|)
    requires candidateValues.Length == candidateIndices.Length == K + chunkValues.Length
    requires chunkValues != candidateValues && candidateIndices != out && chunkIndices != selected
    requires kStart == |seen| && |best| == K && Kept(best, out[..], seen, K)
    modifies out, chunkValues, chunkIndices, candidateValues, candidateIndices, nextBest, selected
    ensures Kept(nextBest[..], out[..], seen + chunk, K)
  {
    hide Kept;
    ghost var out0 := out[..];
    var ct := Min(K, |chunk|);
    TopKInto(chunk, ct, chunkValues, chunkIndices);
    var top, topValues := chunkIndices[..ct], chunkValues[..ct];
    var candV := Concatenate(best, topValues, candidateValues);
    var candI := Concatenate(out[..], Shifted(top, kStart), candidateIndices);
    TopKInto(candV, K, nextBest, selected);
    GatherInto(candI, selected, nextBest, out);
    ghost var sel := selected[..K];
    assert Candidates(candV, candI, best, out0, seen, chunk, K, top);
    assert Selected(nextBest[..], out[..], candV, candI, sel, K);
    ChunkKeeps(best, out0, seen, chunk, K, top, candV, candI, sel, nextBest[..], out[..]);
  }

  /** The indices of the selected candidates, then -1 wherever the kept value is not finite. */
  method GatherInto(candI: seq<int>, selected: array<nat>, nextBest: array<Logit>, out: array<int>)
    requires selected.Length == nextBest.Length == out.Length
    requires forall i :: 0 <= i < selected.Length ==> selected[i] < |candI|
    modifies out
    ensures forall i :: 0 <= i < out.Length ==> out[i] == if nextBest[i].Fin? then candI[selected[i]] else -1
  {
    forall i | 0 <= i < out.Length {
      out[i] := candI[selected[i]];
    }
    forall i | 0 <= i < out.Length && nextBest[i].NegInf? {
      out[i] := -1;
    }
  }

  lemma EmptyKept(K: nat)
    ensures Kept(seq(K, _ => NegInf), seq(K, _ => -1), [], K)
  {}

  /** The tensors a streaming loop allocates once and reuses for every chunk. */
  class Buffers {
    var bestValues: array<Logit>
    var nextBest: array<Logit>
    const chunkValues: array<Logit>
    const chunkIndices: array<nat>
    const candidateValues: array<Logit>
    const candidateIndices: array<int>
    const selected: array<nat>

    /** Shapes for K slots and chunk selections of up to `width`, and no unwanted aliasing. */
    ghost predicate Shaped(K: nat, width: nat)
      reads this
    {
      && bestValues.Length == nextBest.Length == selected.Length == K
      && chunkValues.Length == chunkIndices.Length == width
      && candidateValues.Length == candidateIndices.Length == K + width
      && bestValues != nextBest
      && {bestValues, nextBest} !! {chunkValues, candidateValues}
      && chunkValues != candidateValues && chunkIndices != selected
    }

    ghost function Repr(): set<object>
      reads this
    {
      {this, bestValues, nextBest, chunkValues, chunkIndices, candidateValues, candidateIndices, selected}
    }

    constructor (K: nat, width: nat)
      ensures Shaped(K, width) && fresh(Repr())
      ensures bestValues[..] == seq(K, _ => NegInf)
    {
      bestValues := new Logit[K](_ => NegInf);
      nextBest := new Logit[K](_ => NegInf);
      chunkValues := new Logit[width](_ => NegInf);
      chunkIndices := new nat[width];
      candidateValues := new Logit[K + width](_ => NegInf);
      candidateIndices := new int[K + width];
      selected := new nat[K];
    }

    /** Takes in one chunk and swaps the two value buffers. */
    method Absorb(chunk: seq<Logit>, start: nat, K: nat, width: nat, out: array<int>, ghost seen: seq<Logit>)
      requires Shaped(K, width) && Min(K, |chunk|) <= width && out.Length == K
      requires out !in Repr()
      requires start == |seen| && Kept(bestValues[..], out[..], seen, K)
      modifies Repr(), out
      ensures Shaped(K, width) && Repr() == old(Repr())
      ensures Kept(bestValues[..], out[..], seen + chunk, K)
    {
      ChunkStep(chunk, start, K, bestValues[..], out, chunkValues, chunkIndices,
                candidateValues, candidateIndices, nextBest, selected, seen);
      bestValues, nextBest := nextBest, bestValues;
    }
  }

  /** Marks every slot as free. */
  method FillMissing(out: array<int>)
    modifies out
    ensures out[..] == seq(out.Length, _ => -1)
  {
    forall i | 0 <= i < out.Length {
      out[i] := -1;
    }
  }
}
