/** Logits over a paged key cache: a block table, windows of positions, tiles of heads and
    dimensions, and an early exit past the context. */
module PagedLogits {
  import opened Wrappers
  import opened StrictTopK
  import opened IndexerLogits
  import opened Ownership

  /** A cache of blocks of blockSize keys, and one request's table of blocks. */
  datatype Paged = Paged(blocks: seq<seq<KeyRow>>, blockSize: nat, table: seq<nat>)

  /** The pages cover the first `upto` positions with keys of the query's dimension. */
  ghost predicate Backed(row: Query, p: Paged, upto: int) {
    && row.Valid() && p.blockSize > 0
    && (forall b :: 0 <= b < |p.blocks| ==> |p.blocks[b]| == p.blockSize)
    && (forall b, o :: 0 <= b < |p.blocks| && 0 <= o < p.blockSize ==> |p.blocks[b][o].k| == row.dim)
    && (forall n: nat :: n < upto ==> n / p.blockSize < |p.table| && p.table[n / p.blockSize] < |p.blocks|)
  }

  /** The key at a logical position: its block through the table, its offset in the block. */
  function KeyAt(row: Query, p: Paged, upto: int, n: nat): (key: KeyRow)
    requires Backed(row, p, upto) && n < upto
    ensures |key.k| == row.dim
  {
    var blockRank := n / p.blockSize;
    var blockOffset := n % p.blockSize;
    p.blocks[p.table[blockRank]][blockOffset]
  }

  /** The logit of a position: the plain sum inside the context, -inf past it. */
  function LogitAt(row: Query, p: Paged, contextLen: int, n: nat): Logit
    requires Backed(row, p, contextLen)
  {
    if n < contextLen then Fin(HeadSum(row, KeyAt(row, p, contextLen, n), 0, |row.q|)) else NegInf
  }

  /** The logits of a window of positions. */
  ghost function Window(row: Query, p: Paged, contextLen: int, start: nat, count: nat): (r: seq<Logit>)
    requires Backed(row, p, contextLen)
    ensures |r| == count && forall i :: 0 <= i < count ==> r[i] == LogitAt(row, p, contextLen, start + i)
  {
    seq(count, i requires 0 <= i => LogitAt(row, p, contextLen, start + i))
  }

  /** The pages hold the keys: offset o of the b-th block in the table is key b·blockSize + o. */
  ghost predicate Stores(p: Paged, keys: seq<KeyRow>, upto: int) {
    && (forall b :: 0 <= b < |p.blocks| ==> |p.blocks[b]| == p.blockSize)
    && forall b, o :: 0 <= b < |p.table| && p.table[b] < |p.blocks| && 0 <= o < p.blockSize
                      && 0 <= b * p.blockSize + o < |keys| && b * p.blockSize + o < upto ==>
                      keys[b * p.blockSize + o] == p.blocks[p.table[b]][o]
  }

  lemma KeyIs(row: Query, p: Paged, contextLen: int, keys: seq<KeyRow>, n: nat)
    requires Backed(row, p, contextLen) && Stores(p, keys, contextLen) && n < contextLen && n < |keys|
    ensures KeyAt(row, p, contextLen, n) == keys[n]
  {
    var b, o := n / p.blockSize, n % p.blockSize;
    assert b * p.blockSize + o == n;
    assert 0 <= b < |p.table| && p.table[b] < |p.blocks|;
  }

  /** A window of the paged row is the plain logits of the keys that the pages hold, -inf from the
      context's end on. */
  lemma {:induction false} WindowIs(row: Query, p: Paged, contextLen: int, keys: seq<KeyRow>, start: nat, count: nat)
    requires Backed(row, p, contextLen) && Stores(p, keys, contextLen) && Keys(row, keys) && start + count <= |keys|
    ensures forall i :: 0 <= i < count ==>
              Window(row, p, contextLen, start, count)[i]
              == if start + i < contextLen then Fin(HeadSum(row, keys[start + i], 0, |row.q|)) else NegInf
  {
    hide HeadSum, KeyAt;
    var window := Window(row, p, contextLen, start, count);
    forall i | 0 <= i < count
      ensures window[i] == if start + i < contextLen then Fin(HeadSum(row, keys[start + i], 0, |row.q|)) else NegInf
    {
      if start + i < contextLen { KeyIs(row, p, contextLen, keys, start + i); }
    }
  }

  /** So the full paged row is the dense row of those keys. */
  lemma PagedIsDense(row: Query, p: Paged, contextLen: int, keys: seq<KeyRow>)
    requires Backed(row, p, contextLen) && Stores(p, keys, contextLen) && Keys(row, keys)
    ensures Window(row, p, contextLen, 0, |keys|) == LogitRow(row, keys, 0, contextLen)
  {
    hide HeadSum, LogitAt;
    WindowIs(row, p, contextLen, keys, 0, |keys|);
  }

  /** Windows side by side are the window over both. */
  lemma WindowsJoin(row: Query, p: Paged, contextLen: int, start: nat, a: nat, b: nat)
    requires Backed(row, p, contextLen)
    ensures Window(row, p, contextLen, start, a) + Window(row, p, contextLen, start + a, b)
         == Window(row, p, contextLen, start, a + b)
  {}

  /** One head's score, dimension tile after dimension tile. */
  method HeadScore(row: Query, key: KeyRow, h: nat, blockD: nat) returns (score: real)
    requires row.Valid() && |key.k| == row.dim && h < |row.q| && blockD > 0
    ensures score == Dot(row.q[h], key.k, 0, row.dim)
  {
    score := 0.0;
    var d0 := 0;
    while d0 < row.dim
      invariant 0 <= d0
      invariant score == Dot(row.q[h], key.k, 0, Min(d0, row.dim))
    {
      var d1 := Min(d0 + blockD, row.dim);
      DotSplits(row.q[h], key.k, 0, d0, d1);
      score := score + Dot(row.q[h], key.k, d0, d1);
      d0 := d0 + blockD;
    }
  }

  /** One lane: head tiles of blockH, each summed over its valid heads. */
  method LaneLogit(row: Query, key: KeyRow, blockH: nat, blockD: nat) returns (logit: real)
    requires row.Valid() && |key.k| == row.dim && blockH > 0 && blockD > 0
    ensures logit == HeadSum(row, key, 0, |row.q|)
  {
    logit := 0.0;
    var h0 := 0;
    while h0 < |row.q|
      invariant 0 <= h0
      invariant logit == HeadSum(row, key, 0, Min(h0, |row.q|))
    {
      var tile := 0.0;
      for h := h0 to h0 + blockH
        invariant tile == HeadSum(row, key, h0, Max(h0, Min(h, |row.q|)))
      {
        if h < |row.q| {
          var score := HeadScore(row, key, h, blockD);
          tile := tile + Relu(score * key.scale) * row.weights[h];
        }
      }
      HeadSumSplits(row, key, 0, h0, Min(h0 + blockH, |row.q|));
      logit := logit + tile;
      h0 := h0 + blockH;
    }
  }

  /** The rowwise kernel over one window: programs of blockN lanes, a program that starts past the
      context storing -inf at once. */
  method RowwiseWindow(row: Query, p: Paged, contextLen: int, start: nat, count: nat,
                       blockN: nat, blockH: nat, blockD: nat)
    returns (logits: array<Logit>)
    requires Backed(row, p, contextLen) && blockN > 0 && blockH > 0 && blockD > 0
    ensures fresh(logits) && logits[..] == Window(row, p, contextLen, start, count)
  {
    logits := new Logit[count](_ => NegInf);
    var base := 0;
    while base < count
      invariant 0 <= base
      invariant fresh(logits) && logits.Length == count
      invariant forall i :: 0 <= i < Min(base, count) ==> logits[i] == LogitAt(row, p, contextLen, start + i)
    {
      var end := Min(base + blockN, count);
      if start + base >= contextLen {
        forall i | base <= i < end {
          logits[i] := NegInf;
        }
      } else {
        for i := base to end
          invariant forall k :: 0 <= k < i ==> logits[k] == LogitAt(row, p, contextLen, start + k)
        {
          var n := start + i;
          if n < contextLen {
            var logit := LaneLogit(row, KeyAt(row, p, contextLen, n), blockH, blockD);
            logits[i] := Fin(logit);
          } else {
            logits[i] := NegInf;
          }
        }
      }
      base := base + blockN;
    }
    assert forall i :: 0 <= i < count ==> logits[i] == LogitAt(row, p, contextLen, start + i);
  }

  // ---- the 2D kernel: rows of many requests ----

  /** A batch of requests, each with nextN query rows, their context lengths and its pages. */
  datatype Batch = Batch(rows: seq<seq<Query>>, contexts: seq<seq<int>>, pages: seq<Paged>, nextN: nat)
  {
    ghost predicate Valid() {
      && nextN > 0 && |rows| == |contexts| == |pages|
      && (forall b :: 0 <= b < |rows| ==> |rows[b]| == nextN && |contexts[b]| == nextN)
      && (forall b, j :: 0 <= b < |rows| && 0 <= j < nextN ==> Backed(rows[b][j], pages[b], contexts[b][j]))
    }

    /** Logical row m is a request and a query position in it. */
    ghost function RowLogit(m: nat, n: nat): Logit
      requires Valid() && m < |rows| * nextN
    {
      RowInBatch(m, |rows|, nextN);
      LogitAt(rows[m / nextN][m % nextN], pages[m / nextN], contexts[m / nextN][m % nextN], n)
    }
  }

  /** Row b·nextN + j is query position j of request b: the plain logits of that request's keys. */
  lemma RowLogitIs(b: Batch, r: nat, j: nat, keys: seq<KeyRow>, n: nat)
    requires b.Valid() && r < |b.rows| && j < b.nextN && n < |keys|
    requires Stores(b.pages[r], keys, b.contexts[r][j]) && Keys(b.rows[r][j], keys)
    ensures 0 <= r * b.nextN + j < |b.rows| * b.nextN
    ensures b.RowLogit(r * b.nextN + j, n)
         == if n < b.contexts[r][j] then Fin(HeadSum(b.rows[r][j], keys[n], 0, |b.rows[r][j].q|)) else NegInf
  {
    hide HeadSum, KeyAt;
    Multiples(r + 1, |b.rows|, b.nextN);
    Multiples(0, r, b.nextN);
    Localised(r, j, b.nextN);
    if n < b.contexts[r][j] {
      KeyIs(b.rows[r][j], b.pages[r], b.contexts[r][j], keys, n);
    }
  }

  lemma RowInBatch(m: nat, batches: nat, nextN: nat)
    requires nextN > 0 && m < batches * nextN
    ensures m / nextN < batches
  {}

  /** One cell of a 2D tile: heads one at a time, dimensions in tiles, then the context mask. */
  method CellLogit(row: Query, p: Paged, contextLen: int, n: nat, blockD: nat) returns (logit: Logit)
    requires Backed(row, p, contextLen) && blockD > 0
    ensures logit == LogitAt(row, p, contextLen, n)
  {
    if n >= contextLen { return NegInf; }
    var key := KeyAt(row, p, contextLen, n);
    var sum := 0.0;
    for h := 0 to |row.q|
      invariant sum == HeadSum(row, key, 0, h)
    {
      var score := HeadScore(row, key, h, blockD);
      sum := sum + Relu(score * key.scale) * row.weights[h];
    }
    logit := Fin(sum);
  }

  /** One row of a program: columns n0..n1 of row m, and no other cell. */
  method BlockRow(row: Query, p: Paged, contextLen: int, start: nat, blockD: nat, m: nat, n0: nat, n1: nat,
                  logits: array2<Logit>)
    requires Backed(row, p, contextLen) && blockD > 0
    requires m < logits.Length0 && n0 <= n1 <= logits.Length1
    modifies logits
    ensures forall i :: n0 <= i < n1 ==> logits[m, i] == LogitAt(row, p, contextLen, start + i)
    ensures forall r, i :: 0 <= r < logits.Length0 && 0 <= i < logits.Length1 && (r != m || i < n0 || n1 <= i) ==>
              logits[r, i] == old(logits[r, i])
  {
    hide LogitAt;
    for i := n0 to n1
      invariant forall j :: n0 <= j < i ==> logits[m, j] == LogitAt(row, p, contextLen, start + j)
      invariant forall r, j :: 0 <= r < logits.Length0 && 0 <= j < logits.Length1 && (r != m || j < n0 || i <= j) ==>
                  logits[r, j] == old(logits[r, j])
    {
      logits[m, i] := CellLogit(row, p, contextLen, start + i, blockD);
    }
  }

  /** One program of the 2D kernel: its rows m0..m1, its columns n0..n1, and no other cell. */
  method BlockProgram(b: Batch, start: nat, blockD: nat, m0: nat, m1: nat, n0: nat, n1: nat, logits: array2<Logit>)
    requires b.Valid() && blockD > 0
    requires logits.Length0 == |b.rows| * b.nextN && m0 <= m1 <= logits.Length0 && n0 <= n1 <= logits.Length1
    modifies logits
    ensures forall m, i :: m0 <= m < m1 && n0 <= i < n1 ==> logits[m, i] == b.RowLogit(m, start + i)
    ensures forall m, i :: 0 <= m < logits.Length0 && 0 <= i < logits.Length1 && !(m0 <= m < m1 && n0 <= i < n1) ==>
              logits[m, i] == old(logits[m, i])
  {
    for m := m0 to m1
      invariant forall r, i :: m0 <= r < m && n0 <= i < n1 ==> logits[r, i] == b.RowLogit(r, start + i)
      invariant forall r, i :: 0 <= r < logits.Length0 && 0 <= i < logits.Length1 && !(m0 <= r < m && n0 <= i < n1) ==>
                  logits[r, i] == old(logits[r, i])
    {
      RowInBatch(m, |b.rows|, b.nextN);
      var batch, qPos := m / b.nextN, m % b.nextN;
      BlockRow(b.rows[batch][qPos], b.pages[batch], b.contexts[batch][qPos], start, blockD, m, n0, n1, logits);
      forall i | n0 <= i < n1 ensures logits[m, i] == b.RowLogit(m, start + i) {
      }
    }
  }

  /** The 2D kernel: its programs fill every row's window with the same logits as the rowwise one. */
  method BlockWindow(b: Batch, start: nat, count: nat, blockM: nat, blockN: nat, blockD: nat)
    returns (logits: array2<Logit>)
    requires b.Valid() && blockM > 0 && blockN > 0 && blockD > 0
    ensures logits.Length0 == |b.rows| * b.nextN && logits.Length1 == count
    ensures forall m, i :: 0 <= m < logits.Length0 && 0 <= i < count ==> logits[m, i] == b.RowLogit(m, start + i)
  {
    var numRows := |b.rows| * b.nextN;
    logits := new Logit[numRows, count]((i, j) => NegInf);
    var m0 := 0;
    while m0 < numRows
      invariant 0 <= m0 && fresh(logits) && logits.Length0 == numRows && logits.Length1 == count
      invariant forall m, i :: 0 <= m < Min(m0, numRows) && 0 <= i < count ==> logits[m, i] == b.RowLogit(m, start + i)
    {
      var m1 := Min(m0 + blockM, numRows);
      var n0 := 0;
      while n0 < count
        invariant 0 <= n0 && fresh(logits) && logits.Length0 == numRows && logits.Length1 == count
        invariant forall m, i :: 0 <= m < m1 && 0 <= i < count && (m < m0 || i < n0) ==>
                    logits[m, i] == b.RowLogit(m, start + i)
      {
        BlockProgram(b, start, blockD, m0, m1, n0, Min(n0 + blockN, count), logits);
        n0 := n0 + blockN;
      }
      m0 := m0 + blockM;
    }
  }

  /** The torch loop: a row of -inf, chunks of context positions overwritten by their sums. */
  method TorchRow(row: Query, p: Paged, contextLen: int, maxModelLen: nat, chunk: nat) returns (logits: array<Logit>)
    requires contextLen <= maxModelLen && Backed(row, p, contextLen) && chunk > 0
    ensures logits[..] == Window(row, p, contextLen, 0, maxModelLen)
  {
    logits := new Logit[maxModelLen](_ => NegInf);
    if contextLen > 0 {
      var start := 0;
      while start < contextLen
        invariant 0 <= start
        invariant logits.Length == maxModelLen
        invariant forall n :: 0 <= n < maxModelLen ==>
                    logits[n] == if n < start then LogitAt(row, p, contextLen, n) else NegInf
      {
        var end := Min(contextLen, start + chunk);
        forall n | start <= n < end {
          logits[n] := Fin(TileSum(row, KeyAt(row, p, contextLen, n), 0, |row.q|));
        }
        start := start + chunk;
      }
    }
    assert forall n :: 0 <= n < maxModelLen ==> logits[n] == LogitAt(row, p, contextLen, 0 + n);
  }
}
