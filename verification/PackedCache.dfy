/** The packed indexer cache: in every block all keys' value bytes, then all their scale bytes. */
module PackedCache {
  import opened Ownership

  datatype CacheError = NotBytes | WrongRank | ManyHeads | NoScaleWords
  datatype Layout = Layout(blockSize: nat, headDim: nat, scaleBytes: nat)
  datatype Viewed = Viewed(layout: Layout) | Refused(error: CacheError)

  /** A byte of a block: byte d of a key's values, or byte d of a key's scales. */
  datatype Cell = Value(key: nat, d: nat) | Scale(key: nat, d: nat)

  /** The shape checks, in the order they are made. */
  function ViewPacked(bytes: bool, shape: seq<nat>, headDim: nat): (v: Viewed)
    ensures v.Viewed? <==> (bytes && (|shape| == 3 || (|shape| == 4 && shape[2] == 1))
                            && shape[|shape| - 1] > headDim && (shape[|shape| - 1] - headDim) % 4 == 0)
    ensures v.Viewed? ==> |shape| >= 3 && v.layout.headDim + v.layout.scaleBytes == shape[|shape| - 1]
                          && v.layout.blockSize == shape[1] && v.layout.headDim == headDim
  {
    if !bytes then Refused(NotBytes)
    else if |shape| != 3 && |shape| != 4 then Refused(WrongRank)
    else if |shape| == 4 && shape[2] != 1 then Refused(ManyHeads)
    else
      var last := shape[|shape| - 1];
      if last <= headDim || (last - headDim) % 4 != 0 then Refused(NoScaleWords)
      else Viewed(Layout(shape[1], headDim, last - headDim))
  }

  ghost predicate InBlock(l: Layout, c: Cell) {
    match c
    case Value(key, d) => key < l.blockSize && d < l.headDim
    case Scale(key, d) => key < l.blockSize && d < l.scaleBytes
  }

  /** Bytes of one block. */
  function BlockBytes(l: Layout): nat { l.blockSize * (l.headDim + l.scaleBytes) }

  /** Where the two strided views put a cell, from the start of its block. */
  function OffsetOf(l: Layout, c: Cell): nat {
    match c
    case Value(key, d) => key * l.headDim + d
    case Scale(key, d) => l.blockSize * l.headDim + key * l.scaleBytes + d
  }

  /** The cell at a byte of a block. */
  ghost function CellAt(l: Layout, x: nat): Cell
    requires x < BlockBytes(l)
  {
    var values := l.blockSize * l.headDim;
    ByteCount(l);
    if x < values then
      RowOf(x, l.blockSize, l.headDim);
      Value(x / l.headDim, x % l.headDim)
    else
      RowOf(x - values, l.blockSize, l.scaleBytes);
      Scale((x - values) / l.scaleBytes, (x - values) % l.scaleBytes)
  }

  lemma RowBound(i: nat, rows: nat, d: nat, width: nat)
    requires i < rows && d < width
    ensures 0 <= i * width + d < rows * width
    ensures (i * width + d) / width == i && (i * width + d) % width == d
  {
    Multiples(i + 1, rows, width);
    Multiples(i, rows, width);
    Multiples(0, i, width);
    Localised(i, d, width);
  }

  lemma RowOf(x: nat, rows: nat, width: nat)
    requires x < rows * width
    ensures width > 0 && x / width < rows && (x / width) * width + x % width == x
  {}

  lemma ByteCount(l: Layout)
    ensures BlockBytes(l) == l.blockSize * l.headDim + l.blockSize * l.scaleBytes
  {}

  /** The two views tile a block: every cell lies in the block, and no byte is in two cells. */
  lemma CellsApart(l: Layout, c: Cell)
    requires InBlock(l, c)
    ensures OffsetOf(l, c) < BlockBytes(l) && CellAt(l, OffsetOf(l, c)) == c
  {
    ByteCount(l);
    hide BlockBytes;
    match c
    case Value(key, d) =>
      RowBound(key, l.blockSize, d, l.headDim);
    case Scale(key, d) =>
      RowBound(key, l.blockSize, d, l.scaleBytes);
  }

  /** … and every byte of the block is in a cell. */
  lemma BytesCovered(l: Layout, x: nat)
    requires x < BlockBytes(l)
    ensures InBlock(l, CellAt(l, x)) && OffsetOf(l, CellAt(l, x)) == x
  {
    ByteCount(l);
    hide BlockBytes;
    var values := l.blockSize * l.headDim;
    if x < values {
      RowOf(x, l.blockSize, l.headDim);
    } else {
      RowOf(x - values, l.blockSize, l.scaleBytes);
    }
  }

  /** The order of the bytes: from the first key's values through the last key's, then all scales; the
      bytes of one key are adjacent, and the keys follow one another. */
  lemma CellOrder(l: Layout, key: nat, d: nat)
    requires key < l.blockSize
    ensures l.headDim > 0 ==> OffsetOf(l, Value(0, 0)) == 0
    ensures d + 1 < l.headDim ==> OffsetOf(l, Value(key, d + 1)) == OffsetOf(l, Value(key, d)) + 1
    ensures key + 1 < l.blockSize && l.headDim > 0 ==>
              OffsetOf(l, Value(key + 1, 0)) == OffsetOf(l, Value(key, l.headDim - 1)) + 1
    ensures l.headDim > 0 ==> OffsetOf(l, Scale(0, 0)) == OffsetOf(l, Value(l.blockSize - 1, l.headDim - 1)) + 1
    ensures d + 1 < l.scaleBytes ==> OffsetOf(l, Scale(key, d + 1)) == OffsetOf(l, Scale(key, d)) + 1
    ensures key + 1 < l.blockSize && l.scaleBytes > 0 ==>
              OffsetOf(l, Scale(key + 1, 0)) == OffsetOf(l, Scale(key, l.scaleBytes - 1)) + 1
  {
    Multiples(key, key, l.headDim);
    Multiples(key, key, l.scaleBytes);
    Multiples(l.blockSize - 1, l.blockSize - 1, l.headDim);
  }

  /** Every value byte of a block precedes every scale byte. */
  lemma ValuesFirst(l: Layout, v: Cell, s: Cell)
    requires InBlock(l, v) && InBlock(l, s) && v.Value? && s.Scale?
    ensures OffsetOf(l, v) < OffsetOf(l, s)
  {
    RowBound(v.key, l.blockSize, v.d, l.headDim);
    RowBound(s.key, l.blockSize, s.d, l.scaleBytes);
  }
}
