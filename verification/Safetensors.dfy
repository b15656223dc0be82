/** The shard file format: an 8-byte little-endian header length, the header, the data buffer. */
module Safetensors {
  import opened Wrappers
  import opened Ownership

  type Byte = b: int | 0 <= b < 256

  datatype Tensor = Tensor(dtype: string, shape: seq<nat>, bytes: seq<Byte>)

  /** A header entry: data offsets are relative to the end of the header. */
  datatype Info = Info(dtype: string, shape: seq<nat>, start: nat, end: nat)

  /** The JSON text of a header and its reader; only their agreement on a given header is used. */
  datatype Codec<!N(==)> = Codec(encode: map<N, Info> -> seq<Byte>, decode: seq<Byte> -> map<N, Info>)

  // ---- little-endian length ----

  function LittleEndian(n: nat, bytes: nat): (s: seq<Byte>)
    ensures |s| == bytes
  {
    if bytes == 0 then [] else [n % 256] + LittleEndian(n / 256, bytes - 1)
  }

  function FromLittleEndian(s: seq<Byte>): nat {
    if s == [] then 0 else s[0] + 256 * FromLittleEndian(s[1..])
  }

  function Capacity(bytes: nat): nat {
    if bytes == 0 then 1 else 256 * Capacity(bytes - 1)
  }

  /** A length below 256^bytes survives the fixed-width encoding. */
  lemma {:induction false} LittleEndianRoundTrip(n: nat, bytes: nat)
    requires n < Capacity(bytes)
    ensures FromLittleEndian(LittleEndian(n, bytes)) == n
  {
    if bytes > 0 {
      LittleEndianRoundTrip(n / 256, bytes - 1);
      assert LittleEndian(n, bytes)[1..] == LittleEndian(n / 256, bytes - 1);
    }
  }

  lemma DivideTwice(n: nat, b: nat)
    requires b > 0
    ensures (n / 256) / b == n / (256 * b)
  {
    hide GlobalOf;
    var q := n / 256;
    var s, t := q / b, q % b;
    Globalised(q, b);
    Widen(s, t, b, n % 256);
    Localised(s, 256 * t + n % 256, 256 * b);
  }

  lemma Widen(s: nat, t: nat, b: nat, r: nat)
    requires t < b && r < 256
    ensures 256 * t + r < 256 * b
    ensures GlobalOf(s, 256 * t + r, 256 * b) == 256 * GlobalOf(s, t, b) + r
  {
    assert s * (256 * b) == 256 * (s * b);
  }

  lemma {:induction false} CapacityPositive(bytes: nat)
    ensures Capacity(bytes) > 0
  {
    if bytes > 0 { CapacityPositive(bytes - 1); }
  }

  /** The least significant byte comes first: byte i is digit i of n in base 256. */
  lemma {:induction false} LittleEndianDigit(n: nat, bytes: nat, i: nat)
    requires i < bytes
    ensures Capacity(0) == 1 && Capacity(i + 1) == 256 * Capacity(i) && Capacity(i) > 0
    ensures LittleEndian(n, bytes)[i] == (n / Capacity(i)) % 256
  {
    CapacityPositive(i);
    if i > 0 {
      LittleEndianDigit(n / 256, bytes - 1, i - 1);
      DivideTwice(n, Capacity(i - 1));
      assert LittleEndian(n, bytes)[i] == LittleEndian(n / 256, bytes - 1)[i - 1];
    }
  }

  // ---- writing ----

  /** All tensor bytes, in order. */
  function Data<N>(tensors: seq<(N, Tensor)>): seq<Byte> {
    if tensors == [] then [] else Data(tensors[..|tensors| - 1]) + tensors[|tensors| - 1].1.bytes
  }

  /** The header the writer builds while it advances its offset. */
  function HeaderOf<N(==)>(tensors: seq<(N, Tensor)>): map<N, Info> {
    if tensors == [] then map[]
    else
      var last := tensors[|tensors| - 1];
      var off := |Data(tensors[..|tensors| - 1])|;
      HeaderOf(tensors[..|tensors| - 1])[last.0 := Info(last.1.dtype, last.1.shape, off, off + |last.1.bytes|)]
  }

  /** The bytes of a shard file. */
  function FileOf<N(==)>(codec: Codec<N>, tensors: seq<(N, Tensor)>): seq<Byte> {
    var hj := codec.encode(HeaderOf(tensors));
    LittleEndian(|hj|, 8) + hj + Data(tensors)
  }

  lemma OneMore<N>(tensors: seq<(N, Tensor)>, i: nat)
    requires i < |tensors|
    ensures var (name, t), off := tensors[i], |Data(tensors[..i])|;
            && HeaderOf(tensors[..i + 1])
               == HeaderOf(tensors[..i])[name := Info(t.dtype, t.shape, off, off + |t.bytes|)]
            && Data(tensors[..i + 1]) == Data(tensors[..i]) + t.bytes
  {
    assert tensors[..i + 1][..i] == tensors[..i];
  }

  /** The header pass. */
  method BuildHeader<N(==)>(tensors: seq<(N, Tensor)>) returns (header: map<N, Info>)
    ensures header == HeaderOf(tensors)
  {
    assert tensors[..0] == [];
    header := map[];
    var off: nat := 0;
    for i := 0 to |tensors|
      invariant header == HeaderOf(tensors[..i]) && off == |Data(tensors[..i])|
    {
      hide HeaderOf, Data;
      OneMore(tensors, i);
      var (name, t) := tensors[i];
      header := header[name := Info(t.dtype, t.shape, off, off + |t.bytes|)];
      off := off + |t.bytes|;
    }
    assert tensors[..|tensors|] == tensors;
  }

  lemma Regroup(a: seq<Byte>, b: seq<Byte>, c: seq<Byte>)
    ensures a + b + c == a + (b + c)
  {}

  /** Writes a shard: length and header, then one pass over the tensors for the data. */
  method Write<N(==)>(codec: Codec<N>, tensors: seq<(N, Tensor)>) returns (file: seq<Byte>)
    ensures file == FileOf(codec, tensors)
  {
    var header := BuildHeader(tensors);
    var hj := codec.encode(header);
    file := LittleEndian(|hj|, 8) + hj;
    ghost var prefix := file;
    assert tensors[..0] == [];
    for i := 0 to |tensors|
      invariant file == prefix + Data(tensors[..i])
    {
      hide HeaderOf, Data;
      OneMore(tensors, i);
      Regroup(prefix, Data(tensors[..i]), tensors[i].1.bytes);
      file := file + tensors[i].1.bytes;
    }
    assert tensors[..|tensors|] == tensors;
  }

  // ---- reading ----

  /** parse_header: the header and where the data starts. */
  function ParseHeader<N(==)>(codec: Codec<N>, file: seq<Byte>): Option<(map<N, Info>, nat)> {
    if |file| < 8 then None
    else
      var n := FromLittleEndian(file[..8]);
      if 8 + n > |file| then None else Some((codec.decode(file[8..8 + n]), 8 + n))
  }

  /** read_tensor_bytes; None stands for a missing name or a file too short. */
  function ReadTensor<N(==)>(codec: Codec<N>, file: seq<Byte>, name: N): Option<Tensor> {
    match ParseHeader(codec, file)
    case None => None
    case Some((header, ds)) =>
      if name !in header then None
      else
        var m := header[name];
        if m.start <= m.end && ds + m.end <= |file| then
          Some(Tensor(m.dtype, m.shape, file[ds + m.start..ds + m.end]))
        else None
  }

  ghost predicate DistinctNames<N>(tensors: seq<(N, Tensor)>) {
    forall i, j :: 0 <= i < j < |tensors| ==> tensors[i].0 != tensors[j].0
  }

  /** A later tensor of the same name takes the header entry of tensor i. */
  ghost predicate Shadowed<N>(tensors: seq<(N, Tensor)>, i: nat) {
    i < |tensors| && exists j :: i < j < |tensors| && tensors[j].0 == tensors[i].0
  }

  /** The JSON of this header can be read back, and its length fits in 8 bytes. */
  ghost predicate Encodable<N>(codec: Codec<N>, tensors: seq<(N, Tensor)>) {
    var header := HeaderOf(tensors);
    codec.decode(codec.encode(header)) == header && |codec.encode(header)| < Capacity(8)
  }

  /** Where tensor i lies in the data. */
  function Offset<N>(tensors: seq<(N, Tensor)>, i: nat): nat
    requires i <= |tensors|
  {
    |Data(tensors[..i])|
  }

  /** Offsets are cumulative sums of lengths; tensor i's bytes lie between its two. */
  lemma {:induction false} DataAt<N>(tensors: seq<(N, Tensor)>, i: nat)
    requires i < |tensors|
    ensures Offset(tensors, i) + |tensors[i].1.bytes| == Offset(tensors, i + 1) <= |Data(tensors)|
    ensures Data(tensors)[Offset(tensors, i)..Offset(tensors, i + 1)] == tensors[i].1.bytes
  {
    var n := |tensors| - 1;
    var most := tensors[..n];
    assert tensors[..i + 1][..i] == tensors[..i];
    assert Data(tensors[..i + 1]) == Data(tensors[..i]) + tensors[i].1.bytes;
    if i < n {
      DataAt(most, i);
      assert most[..i] == tensors[..i] && most[..i + 1] == tensors[..i + 1];
      assert Data(tensors) == Data(most) + tensors[n].1.bytes;
    } else {
      assert tensors[..i + 1] == tensors;
    }
  }

  /** The header records every tensor that no later one shadows. */
  lemma {:induction false} HeaderAt<N>(tensors: seq<(N, Tensor)>, i: nat)
    requires i < |tensors| && !Shadowed(tensors, i)
    ensures tensors[i].0 in HeaderOf(tensors)
    ensures HeaderOf(tensors)[tensors[i].0]
         == Info(tensors[i].1.dtype, tensors[i].1.shape, Offset(tensors, i), Offset(tensors, i + 1))
  {
    var n := |tensors| - 1;
    var most := tensors[..n];
    DataAt(tensors, i);
    if i < n {
      assert !Shadowed(most, i) by {
        assert forall j :: i < j < n ==> most[j] == tensors[j];
      }
      HeaderAt(most, i);
      assert most[..i] == tensors[..i] && most[..i + 1] == tensors[..i + 1];
      assert tensors[i].0 != tensors[n].0;
    }
  }

  lemma {:induction false} ParseWritten<N>(codec: Codec<N>, tensors: seq<(N, Tensor)>)
    requires Encodable(codec, tensors)
    ensures var file := FileOf(codec, tensors);
            var ds := 8 + |codec.encode(HeaderOf(tensors))|;
            && ParseHeader(codec, file) == Some((HeaderOf(tensors), ds))
            && |file| == ds + |Data(tensors)| && file[ds..] == Data(tensors)
  {
    var file, hj := FileOf(codec, tensors), codec.encode(HeaderOf(tensors));
    LittleEndianRoundTrip(|hj|, 8);
    assert file[..8] == LittleEndian(|hj|, 8);
    assert file[8..8 + |hj|] == hj;
  }

  /** The file in plain terms. Byte k of the first eight is digit k of the header's length, least
      significant first; then comes the header; */
  lemma {:induction false} LengthByte<N>(codec: Codec<N>, tensors: seq<(N, Tensor)>, k: nat)
    requires k < 8
    ensures var file, hj := FileOf(codec, tensors), codec.encode(HeaderOf(tensors));
            && |file| >= 8 + |hj| && file[8..8 + |hj|] == hj
            && Capacity(k) > 0 && file[k] == (|hj| / Capacity(k)) % 256
  {
    hide LittleEndian;
    var file, hj := FileOf(codec, tensors), codec.encode(HeaderOf(tensors));
    assert file[8..8 + |hj|] == hj;
    LittleEndianDigit(|hj|, 8, k);
  }

  /** and then every tensor's bytes, right behind those of the one before, up to the end. */
  lemma {:induction false} BytesOfTensor<N>(codec: Codec<N>, tensors: seq<(N, Tensor)>, i: nat, ds: nat)
    requires i < |tensors| && ds == 8 + |codec.encode(HeaderOf(tensors))|
    ensures Offset(tensors, 0) == 0 && |FileOf(codec, tensors)| == ds + Offset(tensors, |tensors|)
    ensures Offset(tensors, i + 1) == Offset(tensors, i) + |tensors[i].1.bytes|
    ensures ds + Offset(tensors, i + 1) <= |FileOf(codec, tensors)|
    ensures FileOf(codec, tensors)[ds + Offset(tensors, i)..ds + Offset(tensors, i + 1)] == tensors[i].1.bytes
  {
    var file := FileOf(codec, tensors);
    assert file[ds..] == Data(tensors);
    assert tensors[..0] == [] && tensors[..|tensors|] == tensors;
    DataAt(tensors, i);
    hide Offset, FileOf, Data;
    var s, e := Offset(tensors, i), Offset(tensors, i + 1);
    assert file[ds + s..ds + e] == file[ds..][s..e];
  }

  /** Reading a tensor of a written shard returns its bytes, dtype and shape, unless a later one has
      its name; with distinct names that is every tensor. */
  lemma RoundTrip<N>(codec: Codec<N>, tensors: seq<(N, Tensor)>, i: nat)
    requires Encodable(codec, tensors) && i < |tensors| && !Shadowed(tensors, i)
    ensures ReadTensor(codec, FileOf(codec, tensors), tensors[i].0) == Some(tensors[i].1)
  {
    hide FileOf, ParseHeader, HeaderOf, Data;
    var file := FileOf(codec, tensors);
    var ds := 8 + |codec.encode(HeaderOf(tensors))|;
    ParseWritten(codec, tensors);
    HeaderAt(tensors, i);
    DataAt(tensors, i);
    var s, e := Offset(tensors, i), Offset(tensors, i + 1);
    assert file[ds + s..ds + e] == file[ds..][s..e];
  }

  // ---- the structural check ----

  /** data_offsets pairs, ordered as Python orders lists. */
  predicate PairLeq(a: (nat, nat), b: (nat, nat)) {
    a.0 < b.0 || (a.0 == b.0 && a.1 <= b.1)
  }

  ghost predicate SortedPairs(offs: seq<(nat, nat)>) {
    forall i, j :: 0 <= i < j < |offs| ==> PairLeq(offs[i], offs[j])
  }

  /** The keys of a header, each once, in some order. */
  ghost predicate Listing<N(!new)>(h: map<N, Info>, keys: seq<N>) {
    && (forall i, j :: 0 <= i < j < |keys| ==> keys[i] != keys[j])
    && (forall n :: n in keys <==> n in h)
  }

  function PairsOf<N(!new)>(h: map<N, Info>, keys: seq<N>): (offs: seq<(nat, nat)>)
    requires forall n :: n in keys ==> n in h
    ensures |offs| == |keys|
    ensures forall i :: 0 <= i < |keys| ==> offs[i] == (h[keys[i]].start, h[keys[i]].end)
  {
    seq(|keys|, i requires 0 <= i < |keys| => (h[keys[i]].start, h[keys[i]].end))
  }

  /** offs holds the header's data_offsets in sorted order. */
  ghost predicate SortedOffsets<N(!new)>(h: map<N, Info>, offs: seq<(nat, nat)>) {
    SortedPairs(offs) && exists keys :: Listing(h, keys) && multiset(offs) == multiset(PairsOf(h, keys))
  }

  ghost predicate Chained(offs: seq<(nat, nat)>) {
    && (forall i :: 0 <= i < |offs| - 1 ==> offs[i].1 == offs[i + 1].0)
    && (offs != [] ==> offs[0].0 == 0)
  }

  function ChainEnd(offs: seq<(nat, nat)>): nat {
    if offs == [] then 0 else offs[|offs| - 1].1
  }

  /** What validate asks of a header, the place where its data starts and its file's size. */
  ghost predicate Accepted<N(!new)>(h: map<N, Info>, ds: nat, fileSize: nat) {
    exists offs :: SortedOffsets(h, offs) && Chained(offs) && fileSize == ds + ChainEnd(offs)
  }

  /** The check on sorted offsets. */
  method CheckOffsets(offs: seq<(nat, nat)>, ds: nat, fileSize: nat) returns (ok: bool)
    requires |offs| > 0
    ensures ok <==> Chained(offs) && fileSize == ds + ChainEnd(offs)
  {
    ok := true;
    var cont := offs[0].0 == 0;
    for i := 0 to |offs| - 1
      invariant cont <==> offs[0].0 == 0 && forall k :: 0 <= k < i ==> offs[k].1 == offs[k + 1].0
    {
      if offs[i].1 != offs[i + 1].0 {
        cont := false;
      }
    }
    if !cont {
      ok := false;
    }
    if fileSize != ds + offs[|offs| - 1].1 {
      ok := false;
    }
  }

  method ListKeys<N(==,!new)>(h: map<N, Info>) returns (keys: seq<N>)
    ensures Listing(h, keys)
  {
    keys := [];
    var todo := h.Keys;
    while todo != {}
      invariant todo <= h.Keys
      invariant forall i, j :: 0 <= i < j < |keys| ==> keys[i] != keys[j]
      invariant forall n :: n in keys <==> n in h && n !in todo
      decreases todo
    {
      var n :| n in todo;
      keys, todo := keys + [n], todo - {n};
    }
  }

  lemma InsertPair(r: seq<(nat, nat)>, j: nat, x: (nat, nat), more: seq<(nat, nat)>)
    requires SortedPairs(r) && j <= |r| && more == r[..j] + [x] + r[j..]
    requires j > 0 ==> PairLeq(r[j - 1], x)
    requires forall k :: j <= k < |r| ==> PairLeq(x, r[k])
    ensures SortedPairs(more) && multiset(more) == multiset(r) + multiset{x}
  {
    assert r == r[..j] + r[j..];
    forall k, l | 0 <= k < l < |more|
      ensures PairLeq(more[k], more[l])
    {
      if l == j {
        assert k < j - 1 ==> PairLeq(r[k], r[j - 1]);
      }
    }
  }

  method SortPairs(s: seq<(nat, nat)>) returns (r: seq<(nat, nat)>)
    ensures SortedPairs(r) && multiset(r) == multiset(s)
  {
    r := [];
    for i := 0 to |s|
      invariant SortedPairs(r) && multiset(r) == multiset(s[..i])
    {
      var j := |r|;
      while j > 0 && !PairLeq(r[j - 1], s[i])
        invariant 0 <= j <= |r|
        invariant forall k :: j <= k < |r| ==> PairLeq(s[i], r[k])
      {
        j := j - 1;
      }
      var more := r[..j] + [s[i]] + r[j..];
      InsertPair(r, j, s[i], more);
      assert s[..i + 1] == s[..i] + [s[i]];
      r := more;
    }
    assert s[..|s|] == s;
  }

  /** A header is accepted with one file size only: a file cut short or with bytes appended is rejected. */
  lemma AcceptedSize<N(!new)>(h: map<N, Info>, ds: nat, size: nat, size': nat)
    requires Accepted(h, ds, size) && Accepted(h, ds, size')
    ensures size == size'
  {
    var a :| SortedOffsets(h, a) && Chained(a) && size == ds + ChainEnd(a);
    var b :| SortedOffsets(h, b) && Chained(b) && size' == ds + ChainEnd(b);
    SortedOffsetsUnique(h, a, b);
  }

  /** The structural check of one shard file; None is a file without a readable header, or with an
      empty one, where the source fails with an exception. */
  method CheckShard<N(==,!new)>(codec: Codec<N>, file: seq<Byte>) returns (ok: Option<bool>)
    ensures ok.None? <==> ParseHeader(codec, file).None? || ParseHeader(codec, file).value.0 == map[]
    ensures ok.Some? ==>
              (ok.value <==> Accepted(ParseHeader(codec, file).value.0, ParseHeader(codec, file).value.1, |file|))
  {
    var parsed := ParseHeader(codec, file);
    if parsed.None? {
      return None;
    }
    var (h, ds) := parsed.value;
    var keys := ListKeys(h);
    if keys == [] {
      assert h == map[];
      return None;
    }
    assert keys[0] in h;
    var offs := SortPairs(PairsOf(h, keys));
    assert |offs| == |multiset(offs)| == |keys|;
    assert SortedOffsets(h, offs);
    var passes := CheckOffsets(offs, ds, |file|);
    forall other | SortedOffsets(h, other)
      ensures other == offs
    {
      SortedOffsetsUnique(h, other, offs);
    }
    ok := Some(passes);
  }

  lemma {:induction false} ListingsPermute<N(!new)>(h: map<N, Info>, a: seq<N>, b: seq<N>)
    requires Listing(h, a) && Listing(h, b)
    ensures multiset(PairsOf(h, a)) == multiset(PairsOf(h, b))
  {
    SameElements(a, b);
    PairsPermute(h, a, b);
  }

  lemma SameElements<N(!new)>(a: seq<N>, b: seq<N>)
    requires forall i, j :: 0 <= i < j < |a| ==> a[i] != a[j]
    requires forall i, j :: 0 <= i < j < |b| ==> b[i] != b[j]
    requires forall n :: n in a <==> n in b
    ensures multiset(a) == multiset(b)
  {
    forall n: N | n in multiset(a) || n in multiset(b)
      ensures multiset(a)[n] == multiset(b)[n]
    {
      OnceEach(a, n);
      OnceEach(b, n);
    }
  }

  lemma {:induction false} OnceEach<N(!new)>(a: seq<N>, n: N)
    requires forall i, j :: 0 <= i < j < |a| ==> a[i] != a[j]
    ensures multiset(a)[n] == if n in a then 1 else 0
  {
    if a != [] {
      OnceEach(a[1..], n);
      assert a == [a[0]] + a[1..];
    }
  }

  lemma PairsConcat<N(!new)>(h: map<N, Info>, a: seq<N>, b: seq<N>)
    requires forall n :: n in a ==> n in h
    requires forall n :: n in b ==> n in h
    ensures forall n :: n in a + b ==> n in h
    ensures PairsOf(h, a + b) == PairsOf(h, a) + PairsOf(h, b)
  {}

  lemma CutOut<T>(b: seq<T>, i: nat)
    requires i < |b|
    ensures b == b[..i] + ([b[i]] + b[i + 1..])
  {}

  lemma WithoutOne<T>(a: seq<T>, b: seq<T>, i: nat)
    requires a != [] && i < |b| && b[i] == a[0] && multiset(a) == multiset(b)
    ensures multiset(a[1..]) == multiset(b[..i] + b[i + 1..])
  {
    var x, rest := a[0], b[..i] + b[i + 1..];
    assert a == [x] + a[1..];
    assert b == b[..i] + [x] + b[i + 1..];
    assert multiset(a[1..]) == multiset(a) - multiset{x};
    assert multiset(rest) == multiset(b) - multiset{x};
  }

  /** The pairs of b are those of its element i and of the rest. */
  lemma PairsCutOut<N(!new)>(h: map<N, Info>, b: seq<N>, i: nat, rest: seq<N>)
    requires i < |b| && rest == b[..i] + b[i + 1..] && forall n :: n in b ==> n in h
    ensures forall n :: n in rest ==> n in h
    ensures multiset(PairsOf(h, b)) == multiset(PairsOf(h, [b[i]])) + multiset(PairsOf(h, rest))
  {
    hide PairsOf;
    CutOut(b, i);
    PairsConcat(h, b[..i], b[i + 1..]);
    PairsConcat(h, [b[i]], b[i + 1..]);
    PairsConcat(h, b[..i], [b[i]] + b[i + 1..]);
  }

  lemma {:induction false} PairsPermute<N(!new)>(h: map<N, Info>, a: seq<N>, b: seq<N>)
    requires multiset(a) == multiset(b)
    requires forall n :: n in a ==> n in h
    requires forall n :: n in b ==> n in h
    ensures multiset(PairsOf(h, a)) == multiset(PairsOf(h, b))
  {
    if a == [] {
      assert |b| == |multiset(b)| == 0;
    } else {
      hide PairsOf;
      assert a[0] in multiset(b);
      var i :| 0 <= i < |b| && b[i] == a[0];
      assert a[1..] == a[..0] + a[0 + 1..];
      WithoutOne(a, b, i);
      PairsCutOut(h, a, 0, a[1..]);
      PairsCutOut(h, b, i, b[..i] + b[i + 1..]);
      PairsPermute(h, a[1..], b[..i] + b[i + 1..]);
    }
  }

  /** A header has one sorted arrangement of its offsets. */
  lemma SortedOffsetsUnique<N(!new)>(h: map<N, Info>, a: seq<(nat, nat)>, b: seq<(nat, nat)>)
    requires SortedOffsets(h, a) && SortedOffsets(h, b)
    ensures a == b
  {
    var ka :| Listing(h, ka) && multiset(a) == multiset(PairsOf(h, ka));
    var kb :| Listing(h, kb) && multiset(b) == multiset(PairsOf(h, kb));
    ListingsPermute(h, ka, kb);
    SortedUnique(a, b);
  }

  lemma {:induction false} OffsetsAscend<N>(tensors: seq<(N, Tensor)>, i: nat, j: nat)
    requires i <= j <= |tensors|
    ensures Offset(tensors, i) <= Offset(tensors, j)
    decreases j - i
  {
    if i < j {
      DataAt(tensors, i);
      OffsetsAscend(tensors, i + 1, j);
    }
  }

  lemma SameTails<T>(a: seq<T>, b: seq<T>)
    requires a != [] && b != [] && a[0] == b[0] && multiset(a) == multiset(b)
    ensures multiset(a[1..]) == multiset(b[1..])
  {
    assert a == [a[0]] + a[1..] && b == [b[0]] + b[1..];
    assert multiset(a[1..]) == multiset(a) - multiset{a[0]};
    assert multiset(b[1..]) == multiset(b) - multiset{b[0]};
  }

  lemma SmallestFirst(a: seq<(nat, nat)>, b: seq<(nat, nat)>)
    requires SortedPairs(a) && a != [] && b != [] && multiset(a) == multiset(b)
    ensures PairLeq(a[0], b[0])
  {
    assert b[0] in multiset(a);
    var j :| 0 <= j < |a| && a[j] == b[0];
  }

  lemma {:induction false} SortedUnique(a: seq<(nat, nat)>, b: seq<(nat, nat)>)
    requires SortedPairs(a) && SortedPairs(b) && multiset(a) == multiset(b)
    ensures a == b
  {
    assert |a| == |multiset(a)| && |b| == |multiset(b)|;
    if a != [] {
      SmallestFirst(a, b);
      SmallestFirst(b, a);
      SameTails(a, b);
      SortedUnique(a[1..], b[1..]);
      assert a == [a[0]] + a[1..] && b == [b[0]] + b[1..];
    }
  }

  // ---- the check on what the writer wrote ----

  /** The tensors among the first n that own a header entry. */
  ghost function Owners<N>(tensors: seq<(N, Tensor)>, n: nat): seq<nat>
    requires n <= |tensors|
  {
    if n == 0 then []
    else Owners(tensors, n - 1) + (if Shadowed(tensors, n - 1) then [] else [n - 1])
  }

  lemma {:induction false} OwnersAre<N>(tensors: seq<(N, Tensor)>, n: nat)
    requires n <= |tensors|
    ensures forall k :: 0 <= k < |Owners(tensors, n)| ==>
              Owners(tensors, n)[k] < n && !Shadowed(tensors, Owners(tensors, n)[k])
    ensures forall k, l :: 0 <= k < l < |Owners(tensors, n)| ==> Owners(tensors, n)[k] < Owners(tensors, n)[l]
  {
    hide Shadowed;
    if n > 0 { OwnersAre(tensors, n - 1); }
  }

  lemma {:induction false} OwnerIndex<N>(tensors: seq<(N, Tensor)>, n: nat, i: nat) returns (k: nat)
    requires i < n <= |tensors| && !Shadowed(tensors, i)
    ensures k < |Owners(tensors, n)| && Owners(tensors, n)[k] == i
  {
    hide Shadowed;
    if i == n - 1 {
      k := |Owners(tensors, n)| - 1;
    } else {
      k := OwnerIndex(tensors, n - 1, i);
    }
  }

  /** Their data_offsets. */
  ghost function OwnedOffsets<N>(tensors: seq<(N, Tensor)>, n: nat): seq<(nat, nat)>
    requires n <= |tensors|
  {
    if n == 0 then []
    else
      OwnedOffsets(tensors, n - 1)
      + (if Shadowed(tensors, n - 1) then [] else [(Offset(tensors, n - 1), Offset(tensors, n))])
  }

  lemma {:induction false} OwnedOffsetsLen<N>(tensors: seq<(N, Tensor)>, n: nat)
    requires n <= |tensors|
    ensures |OwnedOffsets(tensors, n)| == |Owners(tensors, n)|
  {
    hide Offset, Shadowed;
    if n > 0 { OwnedOffsetsLen(tensors, n - 1); }
  }

  lemma {:induction false} OwnedOffsetAt<N>(tensors: seq<(N, Tensor)>, n: nat, k: nat)
    requires n <= |tensors| && k < |Owners(tensors, n)|
    ensures k < |OwnedOffsets(tensors, n)| && Owners(tensors, n)[k] < n
    ensures OwnedOffsets(tensors, n)[k]
         == (Offset(tensors, Owners(tensors, n)[k]), Offset(tensors, Owners(tensors, n)[k] + 1))
  {
    hide Offset, Shadowed;
    OwnedOffsetsLen(tensors, n - 1);
    if k < |Owners(tensors, n - 1)| { OwnedOffsetAt(tensors, n - 1, k); }
  }

  /** No bytes are lost to a shadowing name. */
  ghost predicate NothingShadowed<N>(tensors: seq<(N, Tensor)>, n: nat)
    requires n <= |tensors|
  {
    forall i: nat :: i < n && Shadowed(tensors, i) ==> tensors[i].1.bytes == []
  }

  lemma OffsetNext<N>(tensors: seq<(N, Tensor)>, n: nat)
    requires n < |tensors|
    ensures Offset(tensors, n + 1) == Offset(tensors, n) + |tensors[n].1.bytes|
  {
    DataAt(tensors, n);
  }

  lemma NothingShadowedNext<N>(tensors: seq<(N, Tensor)>, n: nat)
    requires n < |tensors|
    ensures NothingShadowed(tensors, n + 1)
       <==> NothingShadowed(tensors, n) && (Shadowed(tensors, n) ==> tensors[n].1.bytes == [])
  {
    if NothingShadowed(tensors, n + 1) {
      assert Shadowed(tensors, n) ==> tensors[n].1.bytes == [];
      forall i: nat | i < n && Shadowed(tensors, i)
        ensures tensors[i].1.bytes == []
      {
        assert i < n + 1;
      }
    }
    if NothingShadowed(tensors, n) && (Shadowed(tensors, n) ==> tensors[n].1.bytes == []) {
      forall i: nat | i < n + 1 && Shadowed(tensors, i)
        ensures tensors[i].1.bytes == []
      {
        assert i < n || i == n;
      }
    }
  }

  /** The owners' ranges chain from 0 to offset n exactly when the others among the first n are empty. */
  lemma {:induction false} ChainIff<N>(tensors: seq<(N, Tensor)>, n: nat)
    requires n <= |tensors|
    ensures ChainEnd(OwnedOffsets(tensors, n)) <= Offset(tensors, n)
    ensures Chained(OwnedOffsets(tensors, n)) && ChainEnd(OwnedOffsets(tensors, n)) == Offset(tensors, n)
       <==> NothingShadowed(tensors, n)
  {
    if n > 0 {
      hide Offset, NothingShadowed, Chained, ChainEnd, Shadowed, OwnedOffsets;
      var before, last := OwnedOffsets(tensors, n - 1), (Offset(tensors, n - 1), Offset(tensors, n));
      ChainIff(tensors, n - 1);
      OffsetNext(tensors, n - 1);
      NothingShadowedNext(tensors, n - 1);
      ChainStep(before, last, Shadowed(tensors, n - 1), OwnedOffsets(tensors, n));
    }
  }

  lemma ChainStep(before: seq<(nat, nat)>, last: (nat, nat), skipped: bool, now: seq<(nat, nat)>)
    requires ChainEnd(before) <= last.0 <= last.1
    requires now == if skipped then before else before + [last]
    ensures ChainEnd(now) <= last.1
    ensures Chained(now) && ChainEnd(now) == last.1
       <==> Chained(before) && ChainEnd(before) == last.0 && (skipped ==> last.0 == last.1)
  {
    hide Chained, ChainEnd;
    ChainAppend(before, last);
  }

  lemma ChainAppend(offs: seq<(nat, nat)>, p: (nat, nat))
    ensures Chained(offs + [p]) <==> Chained(offs) && ChainEnd(offs) == p.0
    ensures ChainEnd(offs + [p]) == p.1
  {
    var more := offs + [p];
    if offs != [] && Chained(more) {
      assert more[|offs| - 1].1 == more[|offs|].0;
      forall i | 0 <= i < |offs| - 1
        ensures offs[i].1 == offs[i + 1].0
      {
        assert more[i].1 == more[i + 1].0;
      }
    }
  }

  lemma {:induction false} HeaderNames<N(!new)>(tensors: seq<(N, Tensor)>)
    ensures forall n :: n in HeaderOf(tensors) <==> exists i :: 0 <= i < |tensors| && tensors[i].0 == n
  {
    if tensors != [] {
      var m := |tensors| - 1;
      HeaderNames(tensors[..m]);
      forall n
        ensures n in HeaderOf(tensors) <==> exists i :: 0 <= i < |tensors| && tensors[i].0 == n
      {
        assert n in HeaderOf(tensors) <==> n in HeaderOf(tensors[..m]) || n == tensors[m].0;
        assert forall i :: 0 <= i < m ==> tensors[..m][i] == tensors[i];
      }
    }
  }

  /** Every name has an owner: its last tensor. */
  lemma {:induction false} OwnerOf<N>(tensors: seq<(N, Tensor)>, i: nat) returns (j: nat)
    requires i < |tensors|
    ensures j < |tensors| && tensors[j].0 == tensors[i].0 && !Shadowed(tensors, j)
    decreases |tensors| - i
  {
    j := i;
    if Shadowed(tensors, i) {
      var k :| i < k < |tensors| && tensors[k].0 == tensors[i].0;
      j := OwnerOf(tensors, k);
    }
  }

  function NamesAt<N>(tensors: seq<(N, Tensor)>, own: seq<nat>): (keys: seq<N>)
    requires forall k :: 0 <= k < |own| ==> own[k] < |tensors|
    ensures |keys| == |own| && forall k :: 0 <= k < |own| ==> keys[k] == tensors[own[k]].0
  {
    seq(|own|, k requires 0 <= k < |own| => tensors[own[k]].0)
  }

  /** The names of the owners are the header's keys. */
  lemma {:induction false} OwnersListed<N(!new)>(tensors: seq<(N, Tensor)>, own: seq<nat>)
    requires own == Owners(tensors, |tensors|)
    ensures forall k :: 0 <= k < |own| ==> own[k] < |tensors| && !Shadowed(tensors, own[k])
    ensures Listing(HeaderOf(tensors), NamesAt(tensors, own))
  {
    hide HeaderOf, Owners;
    OwnersAre(tensors, |tensors|);
    var h, keys := HeaderOf(tensors), NamesAt(tensors, own);
    HeaderNames(tensors);
    forall n | n in h
      ensures n in keys
    {
      var i :| 0 <= i < |tensors| && tensors[i].0 == n;
      var j := OwnerOf(tensors, i);
      var k := OwnerIndex(tensors, |tensors|, j);
      assert keys[k] == n;
    }
    forall k, l | 0 <= k < l < |own|
      ensures keys[k] != keys[l]
    {
      assert !Shadowed(tensors, own[k]);
    }
  }

  lemma {:induction false} OwnedOffsetsSorted<N>(tensors: seq<(N, Tensor)>)
    ensures SortedPairs(OwnedOffsets(tensors, |tensors|))
  {
    hide Offset, OwnedOffsets, Owners, Shadowed;
    var n, own, offs := |tensors|, Owners(tensors, |tensors|), OwnedOffsets(tensors, |tensors|);
    OwnersAre(tensors, n);
    OwnedOffsetsLen(tensors, n);
    forall k, l | 0 <= k < l < |offs|
      ensures PairLeq(offs[k], offs[l])
    {
      OwnedOffsetAt(tensors, n, k);
      OwnedOffsetAt(tensors, n, l);
      OffsetsAscend(tensors, own[k] + 1, own[l]);
      OffsetsAscend(tensors, own[k], own[k] + 1);
      OffsetsAscend(tensors, own[l], own[l] + 1);
    }
  }

  lemma {:induction false} OwnedPair<N(!new)>(tensors: seq<(N, Tensor)>, k: nat)
    requires k < |Owners(tensors, |tensors|)|
    ensures k < |OwnedOffsets(tensors, |tensors|)| && Owners(tensors, |tensors|)[k] < |tensors|
    ensures var h, name := HeaderOf(tensors), tensors[Owners(tensors, |tensors|)[k]].0;
            name in h && (h[name].start, h[name].end) == OwnedOffsets(tensors, |tensors|)[k]
  {
    hide HeaderOf, Offset, OwnedOffsets, Owners, Shadowed;
    OwnersAre(tensors, |tensors|);
    HeaderAt(tensors, Owners(tensors, |tensors|)[k]);
    OwnedOffsetAt(tensors, |tensors|, k);
  }

  /** The header's sorted offsets are the owners' ranges in the order written. */
  lemma {:induction false} OwnersAreHeader<N(!new)>(tensors: seq<(N, Tensor)>)
    ensures SortedOffsets(HeaderOf(tensors), OwnedOffsets(tensors, |tensors|))
  {
    hide HeaderOf, OwnedOffsets, Owners, Shadowed;
    var own, offs := Owners(tensors, |tensors|), OwnedOffsets(tensors, |tensors|);
    OwnersListed(tensors, own);
    OwnedOffsetsSorted(tensors);
    OwnedOffsetsLen(tensors, |tensors|);
    var h, keys := HeaderOf(tensors), NamesAt(tensors, own);
    var pairs := PairsOf(h, keys);
    forall k | 0 <= k < |own|
      ensures pairs[k] == offs[k]
    {
      OwnedPair(tensors, k);
    }
    assert pairs == offs;
  }

  /** The structural check accepts a written shard exactly when every tensor whose name a later one
      takes is empty. */
  lemma WrittenAcceptedIff<N(!new)>(codec: Codec<N>, tensors: seq<(N, Tensor)>)
    requires Encodable(codec, tensors)
    ensures ParseHeader(codec, FileOf(codec, tensors)).Some?
    ensures var (h, ds) := ParseHeader(codec, FileOf(codec, tensors)).value;
            && (h == map[] <==> tensors == [])
            && (Accepted(h, ds, |FileOf(codec, tensors)|) <==> NothingShadowed(tensors, |tensors|))
  {
    ParseWritten(codec, tensors);
    var h, offs := HeaderOf(tensors), OwnedOffsets(tensors, |tensors|);
    OwnersAreHeader(tensors);
    ChainIff(tensors, |tensors|);
    assert tensors[..|tensors|] == tensors;
    forall other | SortedOffsets(h, other)
      ensures other == offs
    {
      SortedOffsetsUnique(h, other, offs);
    }
    if tensors != [] {
      assert tensors[|tensors| - 1].0 in h;
    }
  }

  /** With distinct names it accepts every shard. */
  lemma WrittenPassesCheck<N(!new)>(codec: Codec<N>, tensors: seq<(N, Tensor)>)
    requires DistinctNames(tensors) && Encodable(codec, tensors)
    ensures ParseHeader(codec, FileOf(codec, tensors)).Some?
    ensures var (h, ds) := ParseHeader(codec, FileOf(codec, tensors)).value;
            Accepted(h, ds, |FileOf(codec, tensors)|)
  {
    WrittenAcceptedIff(codec, tensors);
  }

  /** Two non-empty tensors of one name: the shard is rejected. */
  lemma DuplicateRejected<N(!new)>(codec: Codec<N>, name: N, t: Tensor)
    requires t.bytes != [] && Encodable(codec, [(name, t), (name, t)])
    ensures var file := FileOf(codec, [(name, t), (name, t)]);
            && ParseHeader(codec, file).Some?
            && !Accepted(ParseHeader(codec, file).value.0, ParseHeader(codec, file).value.1, |file|)
  {
    var twice := [(name, t), (name, t)];
    WrittenAcceptedIff(codec, twice);
    assert twice[1].0 == twice[0].0;
    assert Shadowed(twice, 0);
  }

  /** Writing a shard and checking its file. A shard without tensors makes the check fail. */
  method WriteThenCheck<N(==,!new)>(codec: Codec<N>, tensors: seq<(N, Tensor)>) returns (file: seq<Byte>, ok: Option<bool>)
    requires Encodable(codec, tensors)
    ensures file == FileOf(codec, tensors)
    ensures ok.None? <==> tensors == []
    ensures ok.Some? ==> (ok.value <==> NothingShadowed(tensors, |tensors|))
    ensures ok.Some? && DistinctNames(tensors) ==> ok.value
  {
    file := Write(codec, tensors);
    WrittenAcceptedIff(codec, tensors);
    ok := CheckShard(codec, file);
  }
}
