/** The older selection path, which gathers whole rows of logits, and the write-back of a global
    selection into each rank's local rows. */
module Reassembly {
  import opened Wrappers
  import opened Ownership
  import opened StrictTopK
  import opened CandidateUnion

  /** Every rank's local row, padded with -inf to a common width. */
  function PadTo(row: seq<Logit>, width: nat): (r: seq<Logit>)
    requires |row| <= width
    ensures |r| == width
    ensures forall c :: 0 <= c < width ==> r[c] == if c < |row| then row[c] else NegInf
  {
    row + seq(width - |row|, _ => NegInf)
  }

  /** The gathered row: the ranks' rows of `width` columns side by side. */
  function AllGather(rows: seq<seq<Logit>>, width: nat): (flat: seq<Logit>)
    requires forall r :: 0 <= r < |rows| ==> |rows[r]| == width
    ensures |flat| == |rows| * width
  {
    if rows == [] then [] else AllGather(rows[..|rows| - 1], width) + rows[|rows| - 1]
  }

  /** Where column c of rank r lies in the rank-major row. */
  function FlatAt(r: nat, c: nat, width: nat): nat {
    r * width + c
  }

  lemma {:induction false} FlatHolds(rows: seq<seq<Logit>>, width: nat, r: nat, c: nat)
    requires forall r :: 0 <= r < |rows| ==> |rows[r]| == width
    requires r < |rows| && c < width
    ensures FlatAt(r, c, width) < |AllGather(rows, width)|
    ensures AllGather(rows, width)[FlatAt(r, c, width)] == rows[r][c]
  {
    var n := |rows| - 1;
    Multiples(r + 1, |rows|, width);
    Multiples(r, r, width);
    if r < n {
      FlatHolds(rows[..n], width, r, c);
    } else {
      assert |AllGather(rows[..n], width)| == n * width;
    }
  }

  /** Regroups a rank-major row: column c·N + r of the result is column c of rank r. */
  function Reassemble(flat: seq<Logit>, N: nat, width: nat): (g: seq<Logit>)
    requires N > 0 && |flat| == N * width
    ensures |g| == width * N
    ensures forall j :: 0 <= j < |g| ==> ViewAt(j, N, width) < |flat| && g[j] == flat[ViewAt(j, N, width)]
  {
    ViewInRange(N, width);
    seq(width * N, j requires 0 <= j < width * N => flat[ViewAt(j, N, width)])
  }

  /** Column j of the reassembled row, in the rank-major one. */
  function ViewAt(j: nat, N: nat, width: nat): nat
    requires N > 0
  {
    FlatAt(j % N, j / N, width)
  }

  lemma ViewInRange(N: nat, width: nat)
    requires N > 0
    ensures forall j: nat :: j < width * N ==> ViewAt(j, N, width) < N * width
  {
    forall j: nat | j < width * N
      ensures ViewAt(j, N, width) < N * width
    {
      InView(j, N, width);
    }
  }

  lemma InView(j: nat, N: nat, width: nat)
    requires N > 0 && j < width * N
    ensures j / N < width && ViewAt(j, N, width) == FlatAt(j % N, j / N, width) < N * width
  {
    Globalised(j, N);
    if j / N >= width { Multiples(width, j / N, N); }
    Multiples(j % N + 1, N, width);
    Multiples(j % N, j % N, width);
  }

  /** The ranks' padded local rows of one global row. */
  function LocalRows(logits: seq<Logit>, N: nat, width: nat, ranks: nat): (rows: seq<seq<Logit>>)
    requires 0 < N && ranks <= N && |logits| <= width * N
    ensures |rows| == ranks
    ensures forall r :: 0 <= r < ranks ==> |rows[r]| == width
    ensures forall r, c :: 0 <= r < ranks && 0 <= c < width ==>
              rows[r][c] == if GlobalOf(c, r, N) < |logits| then logits[GlobalOf(c, r, N)] else NegInf
  {
    if ranks == 0 then []
    else
      var r := ranks - 1;
      StridedInRange(|logits|, N, r);
      StridedFits(|logits|, N, r, width);
      LocalRows(logits, N, width, r) + [PadTo(Strided(logits, N, r), width)]
  }

  lemma StridedFits(n: nat, N: nat, r: nat, width: nat)
    requires r < N && n <= width * N
    ensures Own(n, r, N) <= width
  {
    OwnIff(n, r, N, width);
  }

  /** Reassembling the gathered rows restores the global row, padded with -inf. */
  lemma {:induction false} ReassembleRestores(logits: seq<Logit>, N: nat, width: nat, j: nat)
    requires 0 < N && |logits| <= width * N && j < width * N
    ensures var g := Reassemble(AllGather(LocalRows(logits, N, width, N), width), N, width);
            g[j] == if j < |logits| then logits[j] else NegInf
  {
    hide AllGather, FlatAt, GlobalOf, ViewAt, Reassemble, LocalRows;
    InView(j, N, width);
    Globalised(j, N);
    FlatHolds(LocalRows(logits, N, width, N), width, j % N, j / N);
  }

  /** The older path: gather all logits, reassemble, select once. It selects what the candidate
      union selects. */
  method SelectReassembled(logits: seq<Logit>, N: nat, K: nat, width: nat) returns (gsel: seq<int>)
    requires 0 < N && |logits| <= width * N
    ensures gsel == PosRow(TopK(Global(logits), K), K)
  {
    var g := Reassemble(AllGather(LocalRows(logits, N, width, N), width), N, width);
    forall j | 0 <= j < |g|
      ensures g[j] == if j < |logits| then logits[j] else NegInf
    {
      ReassembleRestores(logits, N, width, j);
    }
    assert Global(g) == Global(logits);
    gsel := SelectBrute(g, K);
  }

  // ---- write-back ----

  /** Rank r keeps the selected positions it owns, as local rows, and -1 elsewhere. */
  function OwnedWriteback(gsel: seq<int>, N: nat, r: nat): (wb: seq<int>)
    requires N > 0
    ensures |wb| == |gsel|
  {
    seq(|gsel|, j requires 0 <= j < |gsel| => if gsel[j] % N == r && gsel[j] >= 0 then gsel[j] / N else -1)
  }

  /** Slot by slot: exactly the owner keeps a selected position, and its row maps back to it. */
  lemma WritebackSlot(gsel: seq<int>, N: nat, r: nat, j: nat)
    requires r < N && j < |gsel|
    ensures var wb := OwnedWriteback(gsel, N, r);
            && (wb[j] >= 0 <==> gsel[j] >= 0 && r == gsel[j] % N)
            && (wb[j] >= 0 ==> GlobalOf(wb[j], r, N) == gsel[j])
            && (wb[j] < 0 ==> wb[j] == -1)
  {
    if gsel[j] >= 0 { Globalised(gsel[j], N); }
  }

  /** The global positions rank r attends to. */
  ghost function Restored(gsel: seq<int>, N: nat, r: nat): set<int>
    requires N > 0
  {
    var wb := OwnedWriteback(gsel, N, r);
    set j | 0 <= j < |wb| && wb[j] >= 0 :: GlobalOf(wb[j], r, N)
  }

  lemma RestoredIs(gsel: seq<int>, N: nat, r: nat, p: int)
    requires r < N
    ensures p in Restored(gsel, N, r) <==> p in gsel && p >= 0 && p % N == r
  {
    hide GlobalOf, OwnedWriteback;
    var wb := OwnedWriteback(gsel, N, r);
    if p in Restored(gsel, N, r) {
      var j :| 0 <= j < |wb| && wb[j] >= 0 && p == GlobalOf(wb[j], r, N);
      WritebackSlot(gsel, N, r, j);
    }
    if p in gsel && p >= 0 && p % N == r {
      var j :| 0 <= j < |gsel| && gsel[j] == p;
      WritebackSlot(gsel, N, r, j);
    }
  }

  /** The ranks' rows, mapped back, partition the selection: every selected position is restored by
      its owner and by no other rank, and nothing else is. */
  lemma WritebackPartitions(gsel: seq<int>, N: nat)
    requires N > 0
    ensures forall p :: p in gsel && p >= 0 ==> 0 <= p % N < N && p in Restored(gsel, N, p % N)
    ensures forall r, p :: 0 <= r < N && p in Restored(gsel, N, r) ==> p in gsel && p >= 0
    ensures forall r, r' :: 0 <= r < r' < N ==> Restored(gsel, N, r) !! Restored(gsel, N, r')
  {
    hide Restored;
    forall r, p | 0 <= r < N
      ensures p in Restored(gsel, N, r) <==> p in gsel && p >= 0 && p % N == r
    {
      RestoredIs(gsel, N, r, p);
    }
    forall p | p in gsel && p >= 0
      ensures 0 <= p % N < N && p in Restored(gsel, N, p % N)
    {
      RestoredIs(gsel, N, p % N, p);
    }
    forall r, r' | 0 <= r < r' < N
      ensures Restored(gsel, N, r) !! Restored(gsel, N, r')
    {
      forall p | p in Restored(gsel, N, r)
        ensures p !in Restored(gsel, N, r')
      {
        RestoredIs(gsel, N, r, p);
        RestoredIs(gsel, N, r', p);
      }
    }
  }
}
