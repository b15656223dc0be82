/** Pruning routed experts from a sharded checkpoint: which experts stay, how the survivors are
    relabelled, and what every tensor written is copied from. */
module PruneCheckpoint {
  import opened Wrappers
  import opened StrictTopK
  import opened Safetensors

  /** Tensor names as the three patterns of the script tell them apart. */
  datatype Name =
    | Expert(layer: nat, expert: nat, suffix: string)
    | Gate(layer: nat)
    | Bias(layer: nat)
    | Other(text: string)

  ghost predicate Ascending(s: seq<nat>) {
    forall i, j :: 0 <= i < j < |s| ==> s[i] < s[j]
  }

  // ---- which experts stay ----

  /** How many of E sorted entries a slice up to n keeps; a negative n counts from the end. */
  function SliceEnd(n: int, E: nat): nat {
    if n >= 0 then Min(n, E) else Max(0, E + n)
  }

  predicate LowerBias(a: real, b: real) { a < b }

  /** Distinct indices in ascending order. */
  method SortIndices(s: seq<nat>) returns (r: seq<nat>)
    requires forall i, j :: 0 <= i < j < |s| ==> s[i] != s[j]
    ensures Ascending(r) && |r| == |s| && forall x :: x in r <==> x in s
  {
    var order := ArgsortStable<int>(s, Less);
    r := Gather(s, order);
    forall i, j | 0 <= i < j < |r|
      ensures r[i] < r[j]
    {
      assert StableBefore<int>(s, Less, order[i], order[j]);
    }
    forall x | x in s
      ensures x in r
    {
      var i :| 0 <= i < |s| && s[i] == x;
      PermutationCovers(order, |s|, i);
      var k :| 0 <= k < |order| && order[k] == i;
      assert r[k] == x;
    }
  }

  /** The ratio mode keeps the lowest biases, ties by index, in ascending index order. */
  method BiasKeepList(biases: seq<real>, nKeep: int) returns (keep: seq<nat>)
    ensures Ascending(keep) && LowestBias(keep, biases)
    ensures forall e :: e in keep ==> e < |biases|
    ensures forall e, d: nat :: e in keep && d < |biases| && d !in keep ==>
              biases[e] < biases[d] || (biases[e] == biases[d] && e < d)
    ensures 0 <= nKeep <= |biases| ==> |keep| == nKeep
    ensures nKeep > |biases| ==> |keep| == |biases|
    ensures nKeep < 0 < |biases| + nKeep ==> |keep| == |biases| + nKeep
    ensures |biases| + nKeep <= 0 ==> |keep| == 0
  {
    var order := ArgsortStable(biases, LowerBias);
    var n := SliceEnd(nKeep, |biases|);
    keep := SortIndices(order[..n]);
    assert forall j :: 0 <= j < n ==> order[..n][j] == order[j] && order[j] in keep;
    forall e, d: nat | e in keep && d < |biases| && d !in keep
      ensures biases[e] < biases[d] || (biases[e] == biases[d] && e < d)
    {
      LowestFirst(biases, order, n, keep, e, d);
    }
  }

  lemma LowestFirst(biases: seq<real>, order: seq<nat>, n: nat, keep: seq<nat>, e: nat, d: nat)
    requires IsPermutation(order, |biases|) && StablySorted(biases, LowerBias, order) && n <= |biases|
    requires forall j :: 0 <= j < n ==> order[j] in keep
    requires e in order[..n] && d < |biases| && d !in keep
    ensures biases[e] < biases[d] || (biases[e] == biases[d] && e < d)
  {
    var i :| 0 <= i < n && order[i] == e;
    PermutationCovers(order, |biases|, d);
    var j :| 0 <= j < |biases| && order[j] == d;
    assert StableBefore(biases, LowerBias, order[i], order[j]);
  }

  /** The fixed mode keeps every expert not listed. */
  method FixedDropKeepList(E: nat, drop: set<nat>) returns (keep: seq<nat>)
    ensures Ascending(keep) && forall e: nat :: e in keep <==> e < E && e !in drop
  {
    keep := [];
    for e := 0 to E
      invariant Ascending(keep) && forall i :: 0 <= i < |keep| ==> keep[i] < e
      invariant forall x: nat :: x in keep <==> x < e && x !in drop
    {
      if e !in drop {
        keep := keep + [e];
      }
    }
  }

  // ---- relabelling ----

  /** The kept experts of every MoE layer. */
  type Keep = map<nat, seq<nat>>

  ghost predicate ValidKeep(keep: Keep) {
    forall L :: L in keep ==> Ascending(keep[L])
  }

  /** The new label of an old expert: its place in the kept list. */
  function NewLabel(kept: seq<nat>, old_: nat): (r: Option<nat>)
    ensures r.Some? ==> r.value < |kept| && kept[r.value] == old_
    ensures r.None? ==> old_ !in kept
  {
    if kept == [] then None
    else if kept[|kept| - 1] == old_ then Some(|kept| - 1)
    else NewLabel(kept[..|kept| - 1], old_)
  }

  /** Labels are the order-preserving bijection from the kept experts onto 0..N-1. */
  lemma {:induction false} LabelsBijective(kept: seq<nat>, j: nat)
    requires Ascending(kept) && j < |kept|
    ensures NewLabel(kept, kept[j]) == Some(j)
    ensures forall i :: 0 <= i < j ==> kept[i] < kept[j]
  {}

  datatype Fate = Renamed(to: Name) | Dropped | Sliced | Untouched

  function FateOf(keep: Keep, name: Name): Fate {
    match name
    case Expert(L, e, suffix) =>
      if L !in keep then Dropped
      else if NewLabel(keep[L], e).Some? then Renamed(Expert(L, NewLabel(keep[L], e).value, suffix))
      else Dropped
    case Gate(L) => if L in keep then Sliced else Untouched
    case Bias(L) => if L in keep then Sliced else Untouched
    case Other(_) => Untouched
  }

  /** The name a surviving tensor is written under. */
  function NewName(keep: Keep, name: Name): Name
    requires FateOf(keep, name) != Dropped
  {
    var f := FateOf(keep, name);
    if f.Renamed? then f.to else name
  }

  /** No two surviving tensors are written under one name. */
  lemma NamesDoNotCollide(keep: Keep, a: Name, b: Name)
    requires ValidKeep(keep) && FateOf(keep, a) != Dropped && FateOf(keep, b) != Dropped
    requires NewName(keep, a) == NewName(keep, b)
    ensures a == b
  {}

  // ---- slicing rows ----

  function PySlice(b: seq<Byte>, lo: nat, hi: nat): seq<Byte>
    requires lo <= hi
  {
    b[Min(lo, |b|)..Min(hi, |b|)]
  }

  /** Where row i of rows of rb bytes starts. */
  function RowStart(i: nat, rb: nat): nat {
    i * rb
  }

  lemma RowBounds(i: nat, rb: nat, rows: nat)
    ensures RowStart(i, rb) + rb == RowStart(i + 1, rb)
    ensures i < rows ==> RowStart(i + 1, rb) <= RowStart(rows, rb)
    ensures i >= rows ==> RowStart(rows, rb) <= RowStart(i, rb)
  {}

  /** The bytes of row i, as far as the buffer has them. */
  function Row(b: seq<Byte>, rb: nat, i: nat): seq<Byte> {
    RowBounds(i, rb, 0);
    PySlice(b, RowStart(i, rb), RowStart(i + 1, rb))
  }

  /** The kept rows, one after the other. */
  function JoinRows(b: seq<Byte>, rb: nat, keep: seq<nat>): seq<Byte> {
    if keep == [] then [] else JoinRows(b, rb, keep[..|keep| - 1]) + Row(b, rb, keep[|keep| - 1])
  }

  /** The kept rows of a tensor. None stands for an exception: no rows, or bytes that are not whole rows. */
  function RowSlice(t: Tensor, keep: seq<nat>): Option<Tensor> {
    if t.shape == [] || t.shape[0] == 0 then None
    else
      var rb := |t.bytes| / t.shape[0];
      if rb * t.shape[0] != |t.bytes| then None
      else Some(Tensor(t.dtype, [|keep|] + t.shape[1..], JoinRows(t.bytes, rb, keep)))
  }

  /** Row i lies inside the buffer. */
  predicate HasRow(b: seq<Byte>, rb: nat, i: nat) {
    RowStart(i + 1, rb) <= |b|
  }

  /** A row inside the tensor is whole; past the end Python yields nothing. */
  lemma RowLength(b: seq<Byte>, rb: nat, rows: nat, i: nat)
    requires |b| == RowStart(rows, rb)
    ensures |Row(b, rb, i)| == if i < rows then rb else 0
    ensures i < rows ==> HasRow(b, rb, i)
  {
    RowBounds(i, rb, rows);
  }

  /** Row i, byte by byte. */
  lemma RowBytes(b: seq<Byte>, rb: nat, i: nat, x: nat)
    requires HasRow(b, rb, i) && x < rb
    ensures 0 <= i * rb + x < |b|
    ensures |Row(b, rb, i)| == rb && Row(b, rb, i)[x] == b[i * rb + x]
  {
    RowBounds(i, rb, 0);
  }

  function InRange(keep: seq<nat>, rows: nat): (n: nat)
    ensures n <= |keep|
    ensures n == |keep| <==> forall i :: 0 <= i < |keep| ==> keep[i] < rows
  {
    if keep == [] then 0
    else
      var m := |keep| - 1;
      assert forall i :: 0 <= i < m ==> keep[..m][i] == keep[i];
      InRange(keep[..m], rows) + (if keep[m] < rows then 1 else 0)
  }

  lemma NoRows(rb: nat)
    ensures RowStart(0, rb) == 0
  {}

  lemma {:induction false} JoinedLength(b: seq<Byte>, rb: nat, rows: nat, keep: seq<nat>)
    requires |b| == RowStart(rows, rb)
    ensures |JoinRows(b, rb, keep)| == RowStart(InRange(keep, rows), rb)
  {
    NoRows(rb);
    hide RowStart, Row, HasRow;
    if keep != [] {
      var m := |keep| - 1;
      JoinedLength(b, rb, rows, keep[..m]);
      RowLength(b, rb, rows, keep[m]);
      RowBounds(InRange(keep[..m], rows), rb, 0);
    }
  }

  /** The sliced tensor has as many bytes as its new shape says exactly when every kept index is a
      row of the source: a gate with fewer rows than experts is cut short without an error. */
  lemma SliceFillsShape(t: Tensor, keep: seq<nat>)
    requires RowSlice(t, keep).Some?
    ensures var rb := |t.bytes| / t.shape[0];
            |RowSlice(t, keep).value.bytes| == RowStart(|keep|, rb) <==>
              rb == 0 || forall i :: 0 <= i < |keep| ==> keep[i] < t.shape[0]
  {
    var rb := |t.bytes| / t.shape[0];
    JoinedLength(t.bytes, rb, t.shape[0], keep);
    RowBounds(InRange(keep, t.shape[0]), rb, |keep|);
  }

  lemma RowOfPrefix(a: seq<Byte>, c: seq<Byte>, rb: nat, j: nat)
    requires HasRow(a, rb, j)
    ensures HasRow(a + c, rb, j) && Row(a + c, rb, j) == Row(a, rb, j)
  {}

  lemma RowAtEnd(a: seq<Byte>, c: seq<Byte>, rb: nat, m: nat)
    requires |a| == RowStart(m, rb) && |c| == rb
    ensures HasRow(a + c, rb, m) && Row(a + c, rb, m) == c
  {}

  lemma {:induction false} InRangeAscending(keep: seq<nat>, rows: nat, j: nat)
    requires Ascending(keep) && j < |keep|
    ensures keep[j] < rows <==> j < InRange(keep, rows)
  {
    var m := |keep| - 1;
    if j < m {
      InRangeAscending(keep[..m], rows, j);
    } else if keep[m] >= rows {
      assert InRange(keep, rows) <= m;
    }
  }

  /** Row j of the result is row keep[j] of the source, when the source has that row; otherwise the
      result ends before row j. */
  lemma {:induction false} RowsComeFromKept(b: seq<Byte>, rb: nat, rows: nat, keep: seq<nat>, j: nat)
    requires |b| == RowStart(rows, rb) && Ascending(keep) && j < |keep|
    ensures keep[j] < rows ==> HasRow(b, rb, keep[j]) && HasRow(JoinRows(b, rb, keep), rb, j)
    ensures keep[j] < rows ==> Row(JoinRows(b, rb, keep), rb, j) == Row(b, rb, keep[j])
    ensures keep[j] >= rows ==> |JoinRows(b, rb, keep)| <= RowStart(j, rb)
  {
    hide RowStart, Row, HasRow;
    var m := |keep| - 1;
    var most := keep[..m];
    RowLength(b, rb, rows, keep[j]);
    InRangeAscending(keep, rows, j);
    if keep[j] >= rows {
      JoinedLength(b, rb, rows, keep);
      StartsGrow(InRange(keep, rows), j, rb);
    } else if j < m {
      RowsComeFromKept(b, rb, rows, most, j);
      RowOfPrefix(JoinRows(b, rb, most), Row(b, rb, keep[m]), rb, j);
    } else {
      assert forall i :: 0 <= i < m ==> most[i] < keep[m];
      JoinedLength(b, rb, rows, most);
      RowAtEnd(JoinRows(b, rb, most), Row(b, rb, keep[m]), rb, m);
    }
  }

  lemma StartsGrow(i: nat, j: nat, rb: nat)
    requires i <= j
    ensures RowStart(i, rb) <= RowStart(j, rb)
  {
    RowBounds(i, rb, j);
  }

  /** A gate of one row, sliced for two experts, is announced with two rows and written with one. */
  lemma SliceCutShort()
    ensures var t := RowSlice(Tensor("BF16", [1, 1], [7, 7]), [0, 1]);
            t.Some? && t.value.shape == [2, 1] && t.value.bytes == [7, 7]
  {
    var b: seq<Byte> := [7, 7];
    assert Row(b, 2, 0) == b && Row(b, 2, 1) == [];
    assert [0, 1][..1] == [0] && [0][..0] == [];
    assert JoinRows(b, 2, [0]) == b;
    assert JoinRows(b, 2, [0, 1]) == b;
  }

  // ---- building the pruned checkpoint ----

  /** What a surviving tensor is written as; None is a failed slice. */
  function Converted(keep: Keep, name: Name, t: Tensor): Option<Tensor>
    requires FateOf(keep, name) != Dropped
  {
    if FateOf(keep, name).Sliced? then RowSlice(t, keep[name.layer]) else Some(t)
  }

  /** The names of one shard that survive, in index order. */
  function Survivors(keep: Keep, names: seq<Name>): (sv: seq<Name>)
    ensures forall k :: 0 <= k < |sv| ==> sv[k] in names && FateOf(keep, sv[k]) != Dropped
    ensures forall n :: n in names && FateOf(keep, n) != Dropped ==> n in sv
  {
    if names == [] then []
    else
      var m := |names| - 1;
      assert names == names[..m] + [names[m]];
      var most := Survivors(keep, names[..m]);
      if FateOf(keep, names[m]).Dropped? then most else most + [names[m]]
  }

  lemma {:induction false} SurvivorsDistinct(keep: Keep, names: seq<Name>)
    requires forall i, j :: 0 <= i < j < |names| ==> names[i] != names[j]
    ensures forall i, j :: 0 <= i < j < |Survivors(keep, names)| ==> Survivors(keep, names)[i] != Survivors(keep, names)[j]
  {
    if names != [] {
      var m := |names| - 1;
      SurvivorsDistinct(keep, names[..m]);
      assert forall n :: n in names[..m] ==> n != names[m];
    }
  }

  /** What is written for one shard: every survivor, in order, under its new name, converted. */
  ghost predicate WrittenFor(keep: Keep, names: seq<Name>, file: map<Name, Tensor>, out: seq<(Name, Tensor)>) {
    var sv := Survivors(keep, names);
    && |out| == |sv|
    && forall k :: 0 <= k < |sv| ==>
         && sv[k] in file
         && out[k].0 == NewName(keep, sv[k])
         && Converted(keep, sv[k], file[sv[k]]) == Some(out[k].1)
  }

  /** Slicing fails exactly on a tensor without rows, or whose bytes are not a multiple of its rows. */
  lemma SliceFails(t: Tensor, keep: seq<nat>)
    ensures RowSlice(t, keep).None? <==> !(t.shape != [] && t.shape[0] > 0 && |t.bytes| % t.shape[0] == 0)
  {
    if t.shape != [] && t.shape[0] > 0 {
      var rows := t.shape[0];
      assert |t.bytes| == |t.bytes| / rows * rows + |t.bytes| % rows;
    }
  }

  /** Some gate or bias of a pruned layer in the shard cannot be row-sliced. */
  ghost predicate Unsliceable(keep: Keep, names: seq<Name>, file: map<Name, Tensor>)
    requires forall n :: n in names ==> n in file
  {
    exists n :: n in names && (n.Gate? || n.Bias?) && n.layer in keep && RowSlice(file[n], keep[n.layer]).None?
  }

  /** The inner loop of build over the names of one shard. */
  method ConvertShard(keep: Keep, names: seq<Name>, file: map<Name, Tensor>) returns (out: Option<seq<(Name, Tensor)>>)
    requires forall n :: n in names ==> n in file
    ensures out.Some? ==> WrittenFor(keep, names, file, out.value)
    ensures out.None? <==> Unsliceable(keep, names, file)
  {
    var written: seq<(Name, Tensor)> := [];
    for i := 0 to |names|
      invariant WrittenFor(keep, names[..i], file, written)
    {
      var name := names[i];
      assert names[..i + 1][..i] == names[..i];
      if FateOf(keep, name).Dropped? {
        continue;
      }
      var t := Converted(keep, name, file[name]);
      if t.None? {
        assert name in names;
        return None;
      }
      written := written + [(NewName(keep, name), t.value)];
    }
    assert names[..|names|] == names;
    return Some(written);
  }

  /** The kept experts are those of lowest bias, ties by index. */
  ghost predicate LowestBias(kept: seq<nat>, biases: seq<real>) {
    && (forall e :: e in kept ==> e < |biases|)
    && (forall e, d: nat :: e in kept && d < |biases| && d !in kept ==>
          biases[e] < biases[d] || (biases[e] == biases[d] && e < d))
  }

  /** The four-byte words of a buffer as floats; `float` reads one of them. */
  function Floats(float: seq<Byte> -> real, bytes: seq<Byte>): (a: seq<real>)
    ensures |a| == |bytes| / 4
    ensures forall i :: 0 <= i < |a| ==> a[i] == float(bytes[4 * i..4 * i + 4])
  {
    seq(|bytes| / 4, i requires 0 <= i < |bytes| / 4 => float(bytes[4 * i..4 * i + 4]))
  }

  /** Ratio mode over all MoE layers. None is an exception: a bias that is missing, has bytes left
      over, or is not E float32 values; the kept lists themselves always have one length. */
  method PlanRatio(float: seq<Byte> -> real, moe: seq<nat>, E: nat, tensors: map<Name, Tensor>, nKeep: int)
    returns (keep: Option<Keep>)
    ensures keep.None? <==> exists L :: L in moe && !(Bias(L) in tensors && tensors[Bias(L)].dtype == "F32"
                                                      && |tensors[Bias(L)].bytes| == 4 * E)
    ensures keep.Some? ==> ValidKeep(keep.value) && forall L :: L in keep.value <==> L in moe
    ensures keep.Some? ==> forall L :: L in moe ==>
              Bias(L) in tensors && LowestBias(keep.value[L], Floats(float, tensors[Bias(L)].bytes))
    ensures keep.Some? ==> forall L :: L in moe ==>
              && (0 <= nKeep <= E ==> |keep.value[L]| == nKeep)
              && (nKeep > E ==> |keep.value[L]| == E)
              && (nKeep < 0 < E + nKeep ==> |keep.value[L]| == E + nKeep)
              && (E + nKeep <= 0 ==> |keep.value[L]| == 0)
  {
    hide LowestBias, Floats;
    var plan: Keep := map[];
    for i := 0 to |moe|
      invariant ValidKeep(plan) && forall L :: L in plan <==> L in moe[..i]
      invariant forall L :: L in plan ==>
                  && Bias(L) in tensors && tensors[Bias(L)].dtype == "F32" && |tensors[Bias(L)].bytes| == 4 * E
                  && |plan[L]| == SliceEnd(nKeep, E)
                  && LowestBias(plan[L], Floats(float, tensors[Bias(L)].bytes))
    {
      var L := moe[i];
      if Bias(L) !in tensors {
        return None;
      }
      var t := tensors[Bias(L)];
      if |t.bytes| % 4 != 0 || t.dtype != "F32" || |t.bytes| / 4 != E {
        return None;
      }
      var kept := BiasKeepList(Floats(float, t.bytes), nKeep);
      plan := plan[L := kept];
      assert moe[..i + 1] == moe[..i] + [L];
    }
    assert moe[..|moe|] == moe;
    return Some(plan);
  }

  /** Fixed mode over all MoE layers. */
  method PlanDrop(moe: seq<nat>, E: nat, drop: set<nat>) returns (keep: Keep)
    ensures ValidKeep(keep) && forall L :: L in keep <==> L in moe
    ensures forall L :: L in keep ==> forall e: nat :: e in keep[L] <==> e < E && e !in drop
  {
    keep := map[];
    for i := 0 to |moe|
      invariant ValidKeep(keep) && forall L :: L in keep <==> L in moe[..i]
      invariant forall L :: L in keep ==> forall e: nat :: e in keep[L] <==> e < E && e !in drop
    {
      var kept := FixedDropKeepList(E, drop);
      keep := keep[moe[i] := kept];
      assert moe[..i + 1] == moe[..i] + [moe[i]];
    }
    assert moe[..|moe|] == moe;
  }

  // ---- the whole checkpoint ----

  /** One entry of the source's weight map. */
  datatype Entry = Entry(name: Name, shard: nat)

  /** The source: a weight map with one entry per name, whose shards hold the tensors. */
  ghost predicate ValidSource(index: seq<Entry>, files: seq<map<Name, Tensor>>) {
    && (forall i, j :: 0 <= i < j < |index| ==> index[i].name != index[j].name)
    && (forall i :: 0 <= i < |index| ==> index[i].shard < |files| && index[i].name in files[index[i].shard])
  }

  /** The names of one shard, in index order. */
  function NamesOf(index: seq<Entry>, sh: nat): (names: seq<Name>)
    ensures forall n :: n in names <==> exists i :: 0 <= i < |index| && index[i] == Entry(n, sh)
  {
    if index == [] then []
    else
      var m := |index| - 1;
      assert forall i :: 0 <= i < m ==> index[..m][i] == index[i];
      var most := NamesOf(index[..m], sh);
      if index[m].shard == sh then most + [index[m].name] else most
  }

  lemma {:induction false} NamesDistinct(index: seq<Entry>, sh: nat)
    requires forall i, j :: 0 <= i < j < |index| ==> index[i].name != index[j].name
    ensures forall i, j :: 0 <= i < j < |NamesOf(index, sh)| ==> NamesOf(index, sh)[i] != NamesOf(index, sh)[j]
  {
    if index != [] {
      var m := |index| - 1;
      NamesDistinct(index[..m], sh);
      forall n | n in NamesOf(index[..m], sh)
        ensures n != index[m].name
      {
        var i :| 0 <= i < m && index[..m][i] == Entry(n, sh);
        assert index[i].name == n;
      }
    }
  }

  /** The pruned checkpoint: per shard the tensors written, the new weight map, total_size. */
  datatype Pruned = Pruned(shards: seq<seq<(Name, Tensor)>>, weightMap: map<Name, nat>, totalSize: nat)

  function DataSize(shards: seq<seq<(Name, Tensor)>>): nat {
    if shards == [] then 0 else DataSize(shards[..|shards| - 1]) + |Data(shards[|shards| - 1])|
  }

  lemma {:induction false} SizeAdds(shards: seq<seq<(Name, Tensor)>>, shard: seq<(Name, Tensor)>, name: Name, t: Tensor)
    ensures DataSize([]) == 0 && DataSize(shards + [[]]) == DataSize(shards)
    ensures DataSize(shards + [shard + [(name, t)]]) == DataSize(shards + [shard]) + |t.bytes|
  {
    var none: seq<(Name, Tensor)> := [];
    assert (shards + [none])[..|shards|] == shards;
    assert (shards + [shard])[..|shards|] == shards && (shards + [shard + [(name, t)]])[..|shards|] == shards;
    assert (shard + [(name, t)])[..|shard|] == shard;
  }

  /** The weight map lists exactly the tensors written, each in its shard. */
  ghost predicate Indexed(shards: seq<seq<(Name, Tensor)>>, weightMap: map<Name, nat>) {
    && (forall sh, k :: 0 <= sh < |shards| && 0 <= k < |shards[sh]| ==>
          shards[sh][k].0 in weightMap && weightMap[shards[sh][k].0] == sh)
    && (forall n :: n in weightMap ==> exists sh, k :: 0 <= sh < |shards| && 0 <= k < |shards[sh]| && shards[sh][k].0 == n)
  }

  /** A written name is the new name of a surviving source entry of that shard. */
  lemma {:induction false} WrittenSource(keep: Keep, index: seq<Entry>, files: seq<map<Name, Tensor>>, sh: nat,
                      out: seq<(Name, Tensor)>, k: nat, name: Name)
    requires ValidSource(index, files) && sh < |files| && k < |out|
    requires WrittenFor(keep, NamesOf(index, sh), files[sh], out)
    requires name == Survivors(keep, NamesOf(index, sh))[k]
    ensures FateOf(keep, name) != Dropped && name in files[sh]
    ensures out[k].0 == NewName(keep, name) && Converted(keep, name, files[sh][name]) == Some(out[k].1)
    ensures exists i :: 0 <= i < |index| && index[i] == Entry(name, sh)
  {
    assert name in NamesOf(index, sh);
  }

  /** Names written are new: they differ within a shard and between shards. */
  lemma {:induction false} WrittenNamesDiffer(keep: Keep, index: seq<Entry>, files: seq<map<Name, Tensor>>, sh: nat,
                                              sh': nat,
                           out: seq<(Name, Tensor)>, out': seq<(Name, Tensor)>, k: nat, k': nat)
    requires ValidKeep(keep) && ValidSource(index, files) && sh < |files| && sh' < |files|
    requires WrittenFor(keep, NamesOf(index, sh), files[sh], out) && k < |out|
    requires WrittenFor(keep, NamesOf(index, sh'), files[sh'], out') && k' < |out'|
    requires sh != sh' || k != k'
    ensures out[k].0 != out'[k'].0
  {
    hide FateOf, NewName, Survivors, NamesOf, Converted;
    var a, b := Survivors(keep, NamesOf(index, sh))[k], Survivors(keep, NamesOf(index, sh'))[k'];
    NamesDistinct(index, sh);
    SurvivorsDistinct(keep, NamesOf(index, sh));
    assert a in NamesOf(index, sh) && b in NamesOf(index, sh');
    var i :| 0 <= i < |index| && index[i] == Entry(a, sh);
    var j :| 0 <= j < |index| && index[j] == Entry(b, sh');
    assert a != b;
    if out[k].0 == out'[k'].0 {
      NamesDoNotCollide(keep, a, b);
    }
  }

  /** The weight map maps every written name to its shard, and holds no other name. */
  lemma IndexedEntries(shards: seq<seq<(Name, Tensor)>>, weightMap: map<Name, nat>)
    requires Indexed(shards, weightMap)
    ensures forall sh, k :: 0 <= sh < |shards| && 0 <= k < |shards[sh]| ==>
              shards[sh][k].0 in weightMap && weightMap[shards[sh][k].0] == sh
    ensures forall n :: n in weightMap ==>
              exists sh, k :: 0 <= sh < |shards| && 0 <= k < |shards[sh]| && shards[sh][k].0 == n
  {}

  /** Enters the tensors of the next shard into the weight map and adds up their bytes. */
  method AddToIndex(shards: seq<seq<(Name, Tensor)>>, written: seq<(Name, Tensor)>, weightMap: map<Name, nat>, total: nat)
    returns (weightMap': map<Name, nat>, total': nat)
    requires Indexed(shards, weightMap)
    requires forall sh, k, k' :: 0 <= sh < |shards| && 0 <= k < |shards[sh]| && 0 <= k' < |written| ==>
               shards[sh][k].0 != written[k'].0
    requires forall k, k' :: 0 <= k < k' < |written| ==> written[k].0 != written[k'].0
    ensures Indexed(shards + [written], weightMap')
    ensures total' == total + |Data(written)|
  {
    hide Indexed;
    assert forall sh, k :: 0 <= sh < |shards| && 0 <= k < |shards[sh]| ==>
             shards[sh][k].0 in weightMap && weightMap[shards[sh][k].0] == sh by {
      IndexedEntries(shards, weightMap);
    }
    weightMap', total' := weightMap, total;
    for i := 0 to |written|
      invariant total' == total + |Data(written[..i])|
      invariant forall sh, k :: 0 <= sh < |shards| && 0 <= k < |shards[sh]| ==>
                  shards[sh][k].0 in weightMap' && weightMap'[shards[sh][k].0] == sh
      invariant forall k :: 0 <= k < i ==> written[k].0 in weightMap' && weightMap'[written[k].0] == |shards|
      invariant forall n :: n in weightMap' ==> n in weightMap || exists k :: 0 <= k < i && written[k].0 == n
    {
      assert written[..i + 1][..i] == written[..i];
      weightMap' := weightMap'[written[i].0 := |shards|];
      total' := total' + |written[i].1.bytes|;
    }
    assert written[..|written|] == written;
    IndexedMore(shards, written, weightMap, weightMap');
  }

  lemma IndexedMore(shards: seq<seq<(Name, Tensor)>>, written: seq<(Name, Tensor)>,
                    weightMap: map<Name, nat>, weightMap': map<Name, nat>)
    requires Indexed(shards, weightMap)
    requires forall sh, k :: 0 <= sh < |shards| && 0 <= k < |shards[sh]| ==>
               shards[sh][k].0 in weightMap' && weightMap'[shards[sh][k].0] == sh
    requires forall k :: 0 <= k < |written| ==> written[k].0 in weightMap' && weightMap'[written[k].0] == |shards|
    requires forall n :: n in weightMap' ==> n in weightMap || exists k :: 0 <= k < |written| && written[k].0 == n
    ensures Indexed(shards + [written], weightMap')
  {
    var all: seq<seq<(Name, Tensor)>> := shards + [written];
    forall n | n in weightMap'
      ensures exists sh, k :: 0 <= sh < |all| && 0 <= k < |all[sh]| && all[sh][k].0 == n
    {
      if n in weightMap {
        var sh, k :| 0 <= sh < |shards| && 0 <= k < |shards[sh]| && shards[sh][k].0 == n;
        assert all[sh][k].0 == n;
      } else {
        var k :| 0 <= k < |written| && written[k].0 == n;
        assert all[|shards|][k].0 == n;
      }
    }
  }

  /** A tensor that is not an expert is written under its own name in its own shard. */
  lemma {:induction false} NameStays(keep: Keep, index: seq<Entry>, files: seq<map<Name, Tensor>>, i: nat,
                                     out: seq<(Name, Tensor)>)
    requires ValidSource(index, files) && i < |index| && !index[i].name.Expert?
    requires WrittenFor(keep, NamesOf(index, index[i].shard), files[index[i].shard], out)
    ensures exists k :: 0 <= k < |out| && out[k].0 == index[i].name
  {
    hide WrittenFor;
    SurvivorsWritten(keep, index, files, i, out);
  }

  /** Kept expert number j of a layer is written as expert j. */
  lemma {:induction false} KeptExpertWritten(keep: Keep, index: seq<Entry>, files: seq<map<Name, Tensor>>, i: nat,
                                             j: nat,
                          out: seq<(Name, Tensor)>)
    requires ValidSource(index, files) && ValidKeep(keep) && i < |index|
    requires var name := index[i].name;
             name.Expert? && name.layer in keep && j < |keep[name.layer]| && keep[name.layer][j] == name.expert
    requires WrittenFor(keep, NamesOf(index, index[i].shard), files[index[i].shard], out)
    ensures exists k :: 0 <= k < |out| && out[k].0 == Expert(index[i].name.layer, j, index[i].name.suffix)
  {
    hide WrittenFor;
    LabelsBijective(keep[index[i].name.layer], j);
    SurvivorsWritten(keep, index, files, i, out);
  }

  /** Nothing else is written, and what is not sliced carries the source's dtype, shape and bytes. */
  lemma {:induction false} NothingElse(keep: Keep, index: seq<Entry>, files: seq<map<Name, Tensor>>, sh: nat,
                                       out: seq<(Name, Tensor)>, k: nat)
    requires ValidSource(index, files) && ValidKeep(keep) && sh < |files| && k < |out|
    requires WrittenFor(keep, NamesOf(index, sh), files[sh], out)
    ensures out[k].0.Expert? ==>
              && out[k].0.layer in keep && out[k].0.expert < |keep[out[k].0.layer]|
              && var source := Expert(out[k].0.layer, keep[out[k].0.layer][out[k].0.expert], out[k].0.suffix);
                 Entry(source, sh) in index && source in files[sh] && files[sh][source] == out[k].1
    ensures !out[k].0.Expert? ==> Entry(out[k].0, sh) in index && out[k].0 in files[sh]
    ensures out[k].0.Other? || ((out[k].0.Gate? || out[k].0.Bias?) && out[k].0.layer !in keep) ==>
              files[sh][out[k].0] == out[k].1
  {
    var name := Survivors(keep, NamesOf(index, sh))[k];
    WrittenSource(keep, index, files, sh, out, k, name);
  }

  /** A tensor of that name is written. */
  ghost predicate Writes(out: seq<(Name, Tensor)>, name: Name) {
    exists k :: 0 <= k < |out| && out[k].0 == name
  }

  /** What has to be written for an entry of the source. */
  ghost predicate EntryKept(keep: Keep, name: Name, out: seq<(Name, Tensor)>) {
    match name
    case Expert(L, e, suffix) =>
      L in keep ==> forall j :: 0 <= j < |keep[L]| && keep[L][j] == e ==> Writes(out, Expert(L, j, suffix))
    case Gate(_) => Writes(out, name)
    case Bias(_) => Writes(out, name)
    case Other(_) => Writes(out, name)
  }

  /** What a written tensor has to be a copy of. */
  ghost predicate CopiedFrom(keep: Keep, index: seq<Entry>, sh: nat, file: map<Name, Tensor>, name: Name, t: Tensor) {
    match name
    case Expert(L, j, suffix) =>
      && L in keep && j < |keep[L]| && Entry(Expert(L, keep[L][j], suffix), sh) in index
      && Expert(L, keep[L][j], suffix) in file && file[Expert(L, keep[L][j], suffix)] == t
    case Gate(L) => Entry(name, sh) in index && name in file && (L !in keep ==> file[name] == t)
    case Bias(L) => Entry(name, sh) in index && name in file && (L !in keep ==> file[name] == t)
    case Other(_) => Entry(name, sh) in index && name in file && file[name] == t
  }

  /** A shard of the pruned checkpoint: everything that stays is there under its new name, nothing
      else is, and no name twice. */
  ghost predicate Pruning(keep: Keep, index: seq<Entry>, sh: nat, file: map<Name, Tensor>, out: seq<(Name, Tensor)>) {
    && (forall i :: 0 <= i < |index| && index[i].shard == sh ==> EntryKept(keep, index[i].name, out))
    && (forall k :: 0 <= k < |out| ==> CopiedFrom(keep, index, sh, file, out[k].0, out[k].1))
    && (forall k, l :: 0 <= k < l < |out| ==> out[k].0 != out[l].0)
  }

  lemma {:induction false} WrittenIsPruning(keep: Keep, index: seq<Entry>, files: seq<map<Name, Tensor>>, sh: nat,
                                            out: seq<(Name, Tensor)>)
    requires ValidSource(index, files) && ValidKeep(keep) && sh < |files|
    requires WrittenFor(keep, NamesOf(index, sh), files[sh], out)
    ensures Pruning(keep, index, sh, files[sh], out)
  {
    forall i | 0 <= i < |index| && index[i].shard == sh
      ensures EntryKept(keep, index[i].name, out)
    {
    }
    forall k | 0 <= k < |out|
      ensures CopiedFrom(keep, index, sh, files[sh], out[k].0, out[k].1)
    {
      NothingElse(keep, index, files, sh, out, k);
    }
    forall k, l | 0 <= k < l < |out|
      ensures out[k].0 != out[l].0
    {
      WrittenNamesDiffer(keep, index, files, sh, sh, out, out, k, l);
    }
  }

  /** The gate or bias of an entry has to be sliced and cannot be. */
  ghost predicate BrokenRouter(keep: Keep, files: seq<map<Name, Tensor>>, entry: Entry) {
    && (entry.name.Gate? || entry.name.Bias?) && entry.name.layer in keep
    && entry.shard < |files| && entry.name in files[entry.shard]
    && RowSlice(files[entry.shard][entry.name], keep[entry.name.layer]).None?
  }

  lemma BrokenRouterIs(keep: Keep, index: seq<Entry>, files: seq<map<Name, Tensor>>)
    requires ValidSource(index, files)
    ensures forall i :: 0 <= i < |index| ==>
              (BrokenRouter(keep, files, index[i]) <==>
                && (index[i].name.Gate? || index[i].name.Bias?) && index[i].name.layer in keep
                && var t := files[index[i].shard][index[i].name];
                   !(t.shape != [] && t.shape[0] > 0 && |t.bytes| % t.shape[0] == 0))
  {
    forall i | 0 <= i < |index| && (index[i].name.Gate? || index[i].name.Bias?) && index[i].name.layer in keep
      ensures var t := files[index[i].shard][index[i].name];
              BrokenRouter(keep, files, index[i]) <==> !(t.shape != [] && t.shape[0] > 0 && |t.bytes| % t.shape[0] == 0)
    {
      SliceFails(files[index[i].shard][index[i].name], keep[index[i].name.layer]);
    }
  }

  lemma {:induction false} UnsliceableIs(keep: Keep, index: seq<Entry>, files: seq<map<Name, Tensor>>, sh: nat)
    requires ValidSource(index, files) && sh < |files|
    ensures Unsliceable(keep, NamesOf(index, sh), files[sh])
       <==> exists i :: 0 <= i < |index| && index[i].shard == sh && BrokenRouter(keep, files, index[i])
  {
    hide RowSlice;
    if i :| 0 <= i < |index| && index[i].shard == sh && BrokenRouter(keep, files, index[i]) {
      assert index[i] == Entry(index[i].name, sh);
      assert index[i].name in NamesOf(index, sh);
    }
  }

  /** The outer loop of build: convert each shard, index what was written, add up its bytes. */
  method BuildShards(index: seq<Entry>, files: seq<map<Name, Tensor>>, keep: Keep) returns (out: Option<Pruned>)
    requires ValidSource(index, files) && ValidKeep(keep)
    ensures out.Some? ==>
              && |out.value.shards| == |files|
              && (forall sh :: 0 <= sh < |files| ==>
                    && WrittenFor(keep, NamesOf(index, sh), files[sh], out.value.shards[sh])
                    && Pruning(keep, index, sh, files[sh], out.value.shards[sh]))
              && Indexed(out.value.shards, out.value.weightMap)
              && out.value.totalSize == DataSize(out.value.shards)
    ensures out.None? <==> exists i :: 0 <= i < |index| && BrokenRouter(keep, files, index[i])
  {
    hide WrittenFor, Indexed, Survivors, Unsliceable, NamesOf, Data, Pruning, BrokenRouter;
    var shards: seq<seq<(Name, Tensor)>> := [];
    var weightMap: map<Name, nat> := map[];
    var total: nat := 0;
    IndexedEmpty();
    for sh := 0 to |files|
      invariant |shards| == sh
      invariant forall t :: 0 <= t < sh ==> WrittenFor(keep, NamesOf(index, t), files[t], shards[t])
      invariant forall t :: 0 <= t < sh ==> Pruning(keep, index, t, files[t], shards[t])
      invariant forall i :: 0 <= i < |index| && index[i].shard < sh ==> !BrokenRouter(keep, files, index[i])
      invariant Indexed(shards, weightMap) && total == DataSize(shards)
    {
      var written := ConvertShard(keep, NamesOf(index, sh), files[sh]);
      UnsliceableIs(keep, index, files, sh);
      if written.None? {
        return None;
      }
      WrittenIsPruning(keep, index, files, sh, written.value);
      forall t, k, k' | 0 <= t < sh && 0 <= k < |shards[t]| && 0 <= k' < |written.value|
        ensures shards[t][k].0 != written.value[k'].0
      {
        WrittenNamesDiffer(keep, index, files, t, sh, shards[t], written.value, k, k');
      }
      forall k, k' | 0 <= k < k' < |written.value|
        ensures written.value[k].0 != written.value[k'].0
      {
        WrittenNamesDiffer(keep, index, files, sh, sh, written.value, written.value, k, k');
      }
      weightMap, total := AddToIndex(shards, written.value, weightMap, total);
      assert (shards + [written.value])[..sh] == shards;
      shards := shards + [written.value];
    }
    return Some(Pruned(shards, weightMap, total));
  }

  /** Build fails exactly when some gate or bias of a pruned layer is not made of whole rows. */
  method Build(index: seq<Entry>, files: seq<map<Name, Tensor>>, keep: Keep) returns (out: Option<Pruned>)
    requires ValidSource(index, files) && ValidKeep(keep)
    ensures out.Some? ==>
              && |out.value.shards| == |files|
              && (forall sh :: 0 <= sh < |files| ==>
                    && WrittenFor(keep, NamesOf(index, sh), files[sh], out.value.shards[sh])
                    && Pruning(keep, index, sh, files[sh], out.value.shards[sh]))
              && Indexed(out.value.shards, out.value.weightMap)
              && out.value.totalSize == DataSize(out.value.shards)
    ensures out.None? <==>
              exists i :: 0 <= i < |index| && (index[i].name.Gate? || index[i].name.Bias?) && index[i].name.layer in keep
                          && var t := files[index[i].shard][index[i].name];
                             !(t.shape != [] && t.shape[0] > 0 && |t.bytes| % t.shape[0] == 0)
  {
    hide WrittenFor, Indexed, NamesOf, Pruning, BrokenRouter, DataSize;
    out := BuildShards(index, files, keep);
    BrokenRouterIs(keep, index, files);
  }

  lemma IndexedEmpty()
    ensures Indexed([], map[])
  {}

  // ---- what the written tensors are ----

  /** Expert j of a pruned layer is, byte for byte, the j-th kept expert of the source. */
  lemma {:induction false} ExpertIsKept(keep: Keep, index: seq<Entry>, files: seq<map<Name, Tensor>>, sh: nat,
                     out: seq<(Name, Tensor)>, k: nat)
    requires ValidSource(index, files) && ValidKeep(keep) && sh < |files| && k < |out|
    requires WrittenFor(keep, NamesOf(index, sh), files[sh], out)
    requires out[k].0.Expert?
    ensures var L, j := out[k].0.layer, out[k].0.expert;
            && L in keep && j < |keep[L]|
            && var source := Expert(L, keep[L][j], out[k].0.suffix);
            source in files[sh] && files[sh][source] == out[k].1
  {
    var name := Survivors(keep, NamesOf(index, sh))[k];
    WrittenSource(keep, index, files, sh, out, k, name);
  }

  lemma {:induction false} SlicedRow(source: Tensor, kept: seq<nat>, j: nat)
    requires source.shape != [] && source.shape[0] > 0 && |source.bytes| % source.shape[0] == 0
    requires Ascending(kept) && j < |kept|
    ensures RowSlice(source, kept).Some?
    ensures var t := RowSlice(source, kept).value;
            && t.dtype == source.dtype && t.shape == [|kept|] + source.shape[1..]
            && SliceRow(source, kept[j], t, j)
  {
    SliceFails(source, kept);
    RowsComeFromKept(source.bytes, |source.bytes| / source.shape[0], source.shape[0], kept, j);
  }

  /** Row j of t is row e of the source; where the source has no row e, t ends before row j. */
  ghost predicate SliceRow(source: Tensor, e: nat, t: Tensor, j: nat)
    requires source.shape != [] && source.shape[0] > 0
  {
    var rb := |source.bytes| / source.shape[0];
    if e < source.shape[0] then
      HasRow(source.bytes, rb, e) && HasRow(t.bytes, rb, j) && Row(t.bytes, rb, j) == Row(source.bytes, rb, e)
    else
      |t.bytes| <= RowStart(j, rb)
  }

  /** Gate and bias keep dtype and trailing shape; their row j is the source row of the very expert
      that is now expert j. */
  lemma {:induction false} RouterRowsFollow(keep: Keep, index: seq<Entry>, files: seq<map<Name, Tensor>>, sh: nat,
                         out: seq<(Name, Tensor)>, k: nat, j: nat)
    requires ValidSource(index, files) && ValidKeep(keep) && sh < |files| && k < |out|
    requires WrittenFor(keep, NamesOf(index, sh), files[sh], out)
    requires (out[k].0.Gate? || out[k].0.Bias?) && out[k].0.layer in keep
    requires j < |keep[out[k].0.layer]|
    ensures out[k].0 in files[sh]
    ensures var kept, source, t := keep[out[k].0.layer], files[sh][out[k].0], out[k].1;
            && source.shape != [] && source.shape[0] > 0
            && t.dtype == source.dtype && t.shape == [|kept|] + source.shape[1..]
            && SliceRow(source, kept[j], t, j)
  {
    hide SliceRow;
    var name := Survivors(keep, NamesOf(index, sh))[k];
    WrittenSource(keep, index, files, sh, out, k, name);
    SliceFails(files[sh][name], keep[name.layer]);
    SlicedRow(files[sh][name], keep[name.layer], j);
  }

  /** Every tensor that is neither an expert nor a router of a pruned layer is written, and copied
      unchanged. */
  lemma {:induction false} OthersIdentical(keep: Keep, index: seq<Entry>, files: seq<map<Name, Tensor>>, i: nat,
                                           out: seq<(Name, Tensor)>)
    returns (k: nat)
    requires ValidSource(index, files) && ValidKeep(keep) && i < |index|
    requires WrittenFor(keep, NamesOf(index, index[i].shard), files[index[i].shard], out)
    requires index[i].name.Other? || ((index[i].name.Gate? || index[i].name.Bias?) && index[i].name.layer !in keep)
    ensures k < |out| && out[k] == (index[i].name, files[index[i].shard][index[i].name])
  {
    NameStays(keep, index, files, i, out);
    hide WrittenFor;
    k :| 0 <= k < |out| && out[k].0 == index[i].name;
    NothingElse(keep, index, files, index[i].shard, out, k);
  }

  /** Nothing that should stay is lost: every source tensor not dropped is written in its shard. */
  lemma {:induction false} SurvivorsWritten(keep: Keep, index: seq<Entry>, files: seq<map<Name, Tensor>>, i: nat,
                                            out: seq<(Name, Tensor)>)
    requires ValidSource(index, files) && i < |index|
    requires WrittenFor(keep, NamesOf(index, index[i].shard), files[index[i].shard], out)
    requires FateOf(keep, index[i].name) != Dropped
    ensures exists k :: 0 <= k < |out| && out[k].0 == NewName(keep, index[i].name)
  {}

  /** A written shard can be read back tensor by tensor from its file. */
  lemma {:induction false} WrittenShardReadsBack(codec: Codec<Name>, keep: Keep, index: seq<Entry>,
                                                 files: seq<map<Name, Tensor>>,
                              sh: nat, out: seq<(Name, Tensor)>, k: nat)
    requires ValidSource(index, files) && ValidKeep(keep) && sh < |files| && k < |out|
    requires WrittenFor(keep, NamesOf(index, sh), files[sh], out) && Encodable(codec, out)
    ensures ReadTensor(codec, FileOf(codec, out), out[k].0) == Some(out[k].1)
  {
    forall i, j | 0 <= i < j < |out|
      ensures out[i].0 != out[j].0
    {
      WrittenNamesDiffer(keep, index, files, sh, sh, out, out, i, j);
    }
    RoundTrip(codec, out, k);
  }

  /** And its header, as read back, passes the structural check. */
  lemma {:induction false} WrittenShardPasses(codec: Codec<Name>, keep: Keep, index: seq<Entry>, files: seq<map<Name,
                                              Tensor>>,
                           sh: nat, out: seq<(Name, Tensor)>)
    requires ValidSource(index, files) && ValidKeep(keep) && sh < |files|
    requires WrittenFor(keep, NamesOf(index, sh), files[sh], out) && Encodable(codec, out)
    ensures DistinctNames(out) && ParseHeader(codec, FileOf(codec, out)).Some?
    ensures var (h, ds) := ParseHeader(codec, FileOf(codec, out)).value;
            Accepted(h, ds, |FileOf(codec, out)|)
  {
    hide WrittenFor, Encodable, NamesOf, Accepted, ParseHeader, FileOf;
    forall i, j | 0 <= i < j < |out|
      ensures out[i].0 != out[j].0
    {
      WrittenNamesDiffer(keep, index, files, sh, sh, out, out, i, j);
    }
    WrittenPassesCheck(codec, out);
  }

  /** Build, then the structural check of every shard the weight map names: whatever is built
      passes. Only the shards' headers have to survive their encoding. */
  method BuildThenCheck(codec: Codec<Name>, index: seq<Entry>, files: seq<map<Name, Tensor>>, keep: Keep)
    returns (out: Option<Pruned>, ok: bool)
    requires ValidSource(index, files) && ValidKeep(keep)
    requires forall sh, written :: 0 <= sh < |files| && WrittenFor(keep, NamesOf(index, sh), files[sh], written) ==>
               Encodable(codec, written)
    ensures out.Some? ==> ok
  {
    hide WrittenFor, Encodable, NamesOf, Pruning, BrokenRouter;
    ok := true;
    out := Build(index, files, keep);
    if out.Some? {
      for sh := 0 to |files|
        invariant ok
      {
        if out.value.shards[sh] != [] {
          WrittenShardPasses(codec, keep, index, files, sh, out.value.shards[sh]);
          var _, passes := WriteThenCheck(codec, out.value.shards[sh]);
          if passes != Some(true) {
            ok := false;
          }
        }
      }
    }
  }
}
