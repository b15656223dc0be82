/** The split-K product before the norm: each split stores its own part of the sum over K, and a
    consumer recovers the product by summing over the splits. */
module SplitGemm {
  import opened Wrappers
  import opened IndexerLogits

  /** ceil(a / b). */
  function CeilDiv(a: nat, b: nat): (q: nat)
    requires b > 0
    ensures a <= q * b < a + b
  {
    (a + b - 1) / b
  }

  /** Where split s of numSplit begins; past K the split is empty. */
  function Bound(K: nat, numSplit: nat, s: nat): nat
    requires numSplit > 0
  {
    Min(s * CeilDiv(K, numSplit), K)
  }

  lemma BoundsGrow(K: nat, numSplit: nat, s: nat)
    requires numSplit > 0
    ensures Bound(K, numSplit, s) <= Bound(K, numSplit, s + 1) <= K
  {}

  /** What the consumer reads: the sum over the split dimension. */
  function OverSplits(out: seq<real>): real {
    if out == [] then 0.0 else OverSplits(out[..|out| - 1]) + out[|out| - 1]
  }

  /** Split s's part of Σ a·b. */
  function Part(a: seq<real>, b: seq<real>, numSplit: nat, s: nat): real
    requires |a| == |b| && numSplit > 0
  {
    BoundsGrow(|a|, numSplit, s);
    Dot(a, b, Bound(|a|, numSplit, s), Bound(|a|, numSplit, s + 1))
  }

  /** The splits' parts add up to the product over the part of K they reach. */
  lemma {:induction false} SplitsReach(a: seq<real>, b: seq<real>, numSplit: nat, out: seq<real>)
    requires |a| == |b| && numSplit > 0
    requires forall s :: 0 <= s < |out| ==> out[s] == Part(a, b, numSplit, s)
    ensures OverSplits(out) == Dot(a, b, 0, Bound(|a|, numSplit, |out|))
  {
    if out != [] {
      var s := |out| - 1;
      SplitsReach(a, b, numSplit, out[..s]);
      BoundsGrow(|a|, numSplit, s);
      DotSplits(a, b, 0, Bound(|a|, numSplit, s), Bound(|a|, numSplit, s + 1));
    }
  }

  /** Any number of splits, also more than K, recovers the whole product. */
  lemma {:induction false} SplitsRecover(a: seq<real>, b: seq<real>, numSplit: nat, out: seq<real>)
    requires |a| == |b| && numSplit > 0 && |out| == numSplit
    requires forall s :: 0 <= s < numSplit ==> out[s] == Part(a, b, numSplit, s)
    ensures OverSplits(out) == Dot(a, b, 0, |a|)
  {
    SplitsReach(a, b, numSplit, out);
    assert numSplit * CeilDiv(|a|, numSplit) == CeilDiv(|a|, numSplit) * numSplit;
  }

  /** One masked lane extends the part by its term, or leaves it as it is. */
  lemma {:induction false} LaneTerm(a: seq<real>, b: seq<real>, lo: nat, end: nat, k: nat)
    requires lo <= end <= |a| == |b| && (lo <= k || end <= k)
    ensures Dot(a, b, lo, Max(lo, Min(k + 1, end)))
         == Dot(a, b, lo, Max(lo, Min(k, end))) + (if k < end then a[k] * b[k] else 0.0)
  {}

  /** One program: K-tiles of blockK from its split's begin, lanes past the split's end masked. */
  method SplitProgram(x: seq<real>, fn: seq<real>, numSplit: nat, s: nat, blockK: nat)
    returns (acc: real, sq: real)
    requires |x| == |fn| && numSplit > 0 && s < numSplit && blockK > 0
    ensures acc == Part(x, fn, numSplit, s) && sq == Part(x, x, numSplit, s)
  {
    var splitK := CeilDiv(|x|, numSplit);
    var begin := s * splitK;
    var end := Min(begin + splitK, |x|);
    BoundsGrow(|x|, numSplit, s);
    ghost var lo := Min(begin, |x|);
    assert lo == Bound(|x|, numSplit, s) && end == Bound(|x|, numSplit, s + 1) by {
      assert (s + 1) * splitK == begin + splitK;
    }
    acc, sq := Tiles(x, fn, begin, splitK, lo, end, blockK);
  }

  /** The tile loop of a program whose split is [lo, end). */
  method Tiles(x: seq<real>, fn: seq<real>, begin: nat, splitK: nat, ghost lo: nat, end: nat, blockK: nat)
    returns (acc: real, sq: real)
    requires lo <= end <= |x| == |fn| && blockK > 0
    requires lo <= begin && end <= begin + splitK && (begin < end ==> lo == begin) && (end <= begin ==> lo == end)
    ensures acc == Dot(x, fn, lo, end) && sq == Dot(x, x, lo, end)
  {
    acc, sq := 0.0, 0.0;
    var k0 := 0;
    while k0 < splitK
      invariant 0 <= k0
      invariant acc == Dot(x, fn, lo, Max(lo, Min(begin + k0, end)))
      invariant sq == Dot(x, x, lo, Max(lo, Min(begin + k0, end)))
    {
      for lane := 0 to blockK
        invariant acc == Dot(x, fn, lo, Max(lo, Min(begin + k0 + lane, end)))
        invariant sq == Dot(x, x, lo, Max(lo, Min(begin + k0 + lane, end)))
      {
        var k := begin + k0 + lane;
        LaneTerm(x, fn, lo, end, k);
        LaneTerm(x, x, lo, end, k);
        if k < end {
          acc := acc + x[k] * fn[k];
          sq := sq + x[k] * x[k];
        }
      }
      k0 := k0 + blockK;
    }
  }

  /** The split kernel for one output cell: whatever the number of splits, summing over them gives
      the product and the square norm. */
  method SplitPrenorm(x: seq<real>, fn: seq<real>, numSplit: nat, blockK: nat, out: array<real>, sqrsum: array<real>)
    requires |x| == |fn| && numSplit > 0 && blockK > 0
    requires out != sqrsum && out.Length == numSplit && sqrsum.Length == numSplit
    modifies out, sqrsum
    ensures forall s :: 0 <= s < numSplit ==> out[s] == Part(x, fn, numSplit, s) && sqrsum[s] == Part(x, x, numSplit, s)
    ensures OverSplits(out[..]) == Dot(x, fn, 0, |x|)
    ensures OverSplits(sqrsum[..]) == Dot(x, x, 0, |x|)
  {
    for s := 0 to numSplit
      invariant forall t :: 0 <= t < s ==> out[t] == Part(x, fn, numSplit, t) && sqrsum[t] == Part(x, x, numSplit, t)
    {
      var acc, sq := SplitProgram(x, fn, numSplit, s, blockK);
      out[s], sqrsum[s] := acc, sq;
    }
    SplitsRecover(x, fn, numSplit, out[..]);
    SplitsRecover(x, x, numSplit, sqrsum[..]);
  }

  lemma {:induction false} OnlyFirst(out: seq<real>)
    requires out != [] && forall s :: 1 <= s < |out| ==> out[s] == 0.0
    ensures OverSplits(out) == out[0]
  {
    if |out| > 1 { OnlyFirst(out[..|out| - 1]); }
  }

  /** The portable fallback keeps the same contract: the product in split zero, the rest cleared. An
      output without a split dimension is a single cell, and is assigned the product. */
  method FallbackPrenorm(x: seq<real>, fn: seq<real>, split: bool, out: array<real>, sqrsum: array<real>)
    requires |x| == |fn| && out != sqrsum && out.Length > 0 && sqrsum.Length > 0
    requires !split ==> out.Length == sqrsum.Length == 1
    modifies out, sqrsum
    ensures out[0] == Dot(x, fn, 0, |x|) && sqrsum[0] == Dot(x, x, 0, |x|)
    ensures forall s :: 1 <= s < out.Length ==> out[s] == 0.0
    ensures forall s :: 1 <= s < sqrsum.Length ==> sqrsum[s] == 0.0
    ensures OverSplits(out[..]) == Dot(x, fn, 0, |x|)
    ensures OverSplits(sqrsum[..]) == Dot(x, x, 0, |x|)
  {
    var product, norm := Dot(x, fn, 0, |x|), Dot(x, x, 0, |x|);
    if split {
      forall s | 0 <= s < out.Length { out[s] := 0.0; }
      forall s | 0 <= s < sqrsum.Length { sqrsum[s] := 0.0; }
    }
    out[0] := product;
    sqrsum[0] := norm;
    OnlyFirst(out[..]);
    OnlyFirst(sqrsum[..]);
  }
}
